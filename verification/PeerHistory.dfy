/**
 * What an instance knows of an address from all the rounds that looked it up (internal/allocator/peers.go: round), and
 * how it learns its own.
 */
module PeerHistory {
  import opened Common
  import opened Ordering
  import opened PeerRound
  import E = Election

  /** The addresses a round looks up, and the outcomes of their checks. */
  datatype Looks = Looks(addrs: seq<nat>, rs: seq<Check>)

  ghost predicate Valid(rounds: seq<Looks>) {
    forall l | l in rounds :: |l.addrs| == |l.rs|
  }

  /** The records after the rounds, each as the instance records it. */
  ghost function AfterRounds(r: Records, id: string, threshold: nat, rounds: seq<Looks>): Records
    requires Valid(rounds)
  {
    if rounds == [] then r else
      var before, last := AfterRounds(r, id, threshold, rounds[..|rounds| - 1]), rounds[|rounds| - 1];
      Recorded(before.known, before.self, id, threshold, last.addrs, last.rs)
  }

  /** From the k-th on the address is looked up at i alone. */
  ghost predicate LooksUpFrom(addrs: seq<nat>, rs: seq<Check>, k: nat, i: int, addr: nat) {
    && |addrs| == |rs| && k <= i < |addrs| && addrs[i] == addr
    && forall j | k <= j < |addrs| && j != i :: addrs[j] != addr
  }

  /** The address is looked up in the round, once, with that outcome. */
  ghost predicate LooksUp(l: Looks, addr: nat, check: Check)
    requires |l.addrs| == |l.rs|
  {
    exists i :: LooksUpFrom(l.addrs, l.rs, 0, i, addr) && l.rs[i] == check
  }

  ghost predicate SaysId(check: Check, id: string) {
    check.Answers? && check.id == id
  }

  /** Checks of other addresses leave what is known of this one. */
  lemma {:induction false} UnlookedStays(r: Records, was: map<nat, PeerState>, id: string, threshold: nat,
          addrs: seq<nat>, rs: seq<Check>, k: nat, addr: nat)
    requires k <= |addrs| == |rs| && forall j | k <= j < |addrs| :: addrs[j] != addr
    ensures var r' := RecordFrom(r, was, id, threshold, addrs, rs, k);
            && (addr in r'.known <==> addr in r.known) && (addr in r.known ==> r'.known[addr] == r.known[addr])
            && (r.self != Some(addr) ==> r'.self != Some(addr))
    decreases |addrs| - k
  {
    if k < |addrs| {
      UnlookedStays(RecordOne(r, was, id, threshold, addrs[k], rs[k]), was, id, threshold, addrs, rs, k + 1, addr);
    }
  }

  lemma {:induction false} LookedUpFrom(r: Records, was: map<nat, PeerState>, id: string, threshold: nat,
          addrs: seq<nat>, rs: seq<Check>, k: nat, i: nat, addr: nat)
    requires LooksUpFrom(addrs, rs, k, i, addr) && addr !in r.known && r.self != Some(addr) && !SaysId(rs[i], id)
    ensures var r' := RecordFrom(r, was, id, threshold, addrs, rs, k);
            && r'.self != Some(addr) && addr in r'.known
            && r'.known[addr] == Checked(if addr in was then was[addr] else UNHEARD, rs[i], threshold)
    decreases |addrs| - k
  {
    var next := RecordOne(r, was, id, threshold, addrs[k], rs[k]);
    if i == k {
      UnlookedStays(next, was, id, threshold, addrs, rs, k + 1, addr);
    } else {
      LookedUpFrom(next, was, id, threshold, addrs, rs, k + 1, i, addr);
    }
  }

  /** A round goes on from what was known of an address, and forgets one it does not look up. */
  lemma RoundGoesOn(r: Records, id: string, threshold: nat, l: Looks, addr: nat, check: Check)
    requires |l.addrs| == |l.rs| && r.self != Some(addr)
    ensures var r' := Recorded(r.known, r.self, id, threshold, l.addrs, l.rs);
            && (LooksUp(l, addr, check) && !SaysId(check, id) ==>
                  && r'.self != Some(addr) && addr in r'.known
                  && r'.known[addr] == Checked(if addr in r.known then r.known[addr] else UNHEARD, check, threshold))
            && (addr !in l.addrs ==> addr !in r'.known)
  {
    var none := Records(map[], r.self);
    if LooksUp(l, addr, check) && !SaysId(check, id) {
      var i :| LooksUpFrom(l.addrs, l.rs, 0, i, addr) && l.rs[i] == check;
      LookedUpFrom(none, r.known, id, threshold, l.addrs, l.rs, 0, i, addr);
    }
    if addr !in l.addrs {
      UnlookedStays(none, r.known, id, threshold, l.addrs, l.rs, 0, addr);
    }
  }

  /** The rounds look the address up, each with the outcome listed, none of which is this instance's answer. */
  ghost predicate Looked(rounds: seq<Looks>, addr: nat, id: string, checks: seq<Check>) {
    && Valid(rounds) && |checks| == |rounds|
    && forall i | 0 <= i < |rounds| :: LooksUp(rounds[i], addr, checks[i]) && !SaysId(checks[i], id)
  }

  lemma {:induction false} RoundsGoOn(r: Records, id: string, threshold: nat, rounds: seq<Looks>, addr: nat,
          checks: seq<Check>)
    requires Looked(rounds, addr, id, checks) && addr !in r.known && r.self != Some(addr)
    ensures var r' := AfterRounds(r, id, threshold, rounds);
            && r'.self != Some(addr) && (addr in r'.known <==> rounds != [])
            && (rounds != [] ==> r'.known[addr] == CheckedAll(UNHEARD, checks, threshold))
    decreases |rounds|
  {
    if rounds != [] {
      var n := |rounds| - 1;
      RoundsGoOn(r, id, threshold, rounds[..n], addr, checks[..n]);
      RoundGoesOn(AfterRounds(r, id, threshold, rounds[..n]), id, threshold, rounds[n], addr, checks[n]);
      assert n == 0 ==> checks[..n] == [];
    }
  }

  /**
   * Whatever the rounds and the other addresses, from the first round that looks an address up the peer there is live
   * exactly when it has answered, fewer rounds than the threshold have failed to reach it since, and none of those
   * found it shutting down; and what it is taken to have said is its last answer.
   */
  lemma LiveOverRounds(r: Records, id: string, threshold: nat, rounds: seq<Looks>, addr: nat, checks: seq<Check>)
    requires threshold > 0 && rounds != [] && Looked(rounds, addr, id, checks)
    requires addr !in r.known && r.self != Some(addr)
    ensures var r' := AfterRounds(r, id, threshold, rounds);
            && addr in r'.known && !r'.known[addr].self
            && (r'.known[addr].live <==> exists j: nat ::
                  LastAnswer(checks, j) && |checks| - 1 - j < threshold
                  && forall k | j < k < |checks| :: !checks[k].ShutsDown?)
            && (forall j: nat | LastAnswer(checks, j) :: r'.known[addr].answer == checks[j])
  {
    RoundsGoOn(r, id, threshold, rounds, addr, checks);
    LiveExactly(checks, threshold);
    CheckedIsOther(checks, threshold);
  }

  lemma {:induction false} CheckedIsOther(checks: seq<Check>, threshold: nat)
    ensures !CheckedAll(UNHEARD, checks, threshold).self
  {
    if checks != [] {
      CheckedIsOther(checks[..|checks| - 1], threshold);
    }
  }

  /** The peer it is, when it is one. */
  ghost predicate IsPeer(known: map<nat, PeerState>, addr: nat, o: E.LivePeer) {
    && addr in known && known[addr].live && !known[addr].self && known[addr].answer.Answers?
    && o == E.LivePeer(addr, known[addr].answer.id, known[addr].answer.discovering, known[addr].answer.known)
  }

  /** The others an instance decides by are the live peers of the addresses looked up, in their order. */
  lemma {:induction false} OthersAreLive(known: map<nat, PeerState>, addrs: seq<nat>, o: E.LivePeer)
    ensures o in LiveOthers(known, addrs) <==> exists i :: 0 <= i < |addrs| && IsPeer(known, addrs[i], o)
    ensures Sorted((a: nat, b: nat) => a < b, addrs) ==>
      forall i, j | 0 <= i < j < |LiveOthers(known, addrs)| ::
        LiveOthers(known, addrs)[i].addr < LiveOthers(known, addrs)[j].addr
    decreases |addrs|
  {
    if addrs != [] {
      var rest, a := addrs[..|addrs| - 1], addrs[|addrs| - 1];
      OthersAreLive(known, rest, o);
      assert forall i | 0 <= i < |rest| :: rest[i] == addrs[i];
      if i :| 0 <= i < |rest| && IsPeer(known, rest[i], o) {
        assert IsPeer(known, addrs[i], o);
      }
      if Sorted((x: nat, y: nat) => x < y, addrs) {
        forall i | 0 <= i < |LiveOthers(known, rest)| ensures LiveOthers(known, rest)[i].addr < a {
          AddressListed(known, rest, i);
        }
      }
    }
  }

  lemma {:induction false} AddressListed(known: map<nat, PeerState>, addrs: seq<nat>, i: nat)
    requires i < |LiveOthers(known, addrs)|
    ensures LiveOthers(known, addrs)[i].addr in addrs
    decreases |addrs|
  {
    var rest := addrs[..|addrs| - 1];
    if i < |LiveOthers(known, rest)| {
      AddressListed(known, rest, i);
    }
  }

  // ---- its own address ----

  /** The first address from k on that answers as the instance. */
  ghost predicate FirstOwn(addrs: seq<nat>, rs: seq<Check>, k: nat, id: string, self: Option<nat>)
    requires |addrs| == |rs|
  {
    if self.None? then forall j | k <= j < |rs| :: !SaysId(rs[j], id)
    else exists i | k <= i < |rs| ::
        SaysId(rs[i], id) && addrs[i] == self.value && forall j | k <= j < i :: !SaysId(rs[j], id)
  }

  lemma {:induction false} SelfFrom(r: Records, was: map<nat, PeerState>, id: string, threshold: nat, addrs: seq<nat>,
          rs: seq<Check>, k: nat)
    requires k <= |addrs| == |rs|
    ensures var r' := RecordFrom(r, was, id, threshold, addrs, rs, k);
            if r.self.Some? then r'.self == r.self else FirstOwn(addrs, rs, k, id, r'.self)
    decreases |addrs| - k
  {
    if k < |addrs| {
      SelfFrom(RecordOne(r, was, id, threshold, addrs[k], rs[k]), was, id, threshold, addrs, rs, k + 1);
    }
  }

  /** Neither this instance's own address nor one that answers as it is a live peer. */
  lemma {:induction false} OwnIsNotLive(r: Records, was: map<nat, PeerState>, id: string, threshold: nat,
          addrs: seq<nat>, rs: seq<Check>, k: nat, i: nat, addr: nat)
    requires LooksUpFrom(addrs, rs, k, i, addr) && (SaysId(rs[i], id) || r.self == Some(addr))
    ensures var r' := RecordFrom(r, was, id, threshold, addrs, rs, k);
            addr in r'.known && r'.known[addr].self && !r'.known[addr].live
    decreases |addrs| - k
  {
    var next := RecordOne(r, was, id, threshold, addrs[k], rs[k]);
    if i == k {
      UnlookedStays(next, was, id, threshold, addrs, rs, k + 1, addr);
    } else {
      OwnIsNotLive(next, was, id, threshold, addrs, rs, k + 1, i, addr);
    }
  }

  /**
   * An instance keeps the address it knows for its own, and one that knows none takes the first that answers as itself;
   * such an address is no live peer.
   */
  lemma LearnsItself(r: Records, id: string, threshold: nat, l: Looks, addr: nat, check: Check)
    requires |l.addrs| == |l.rs|
    ensures var r' := Recorded(r.known, r.self, id, threshold, l.addrs, l.rs);
            && (if r.self.Some? then r'.self == r.self else FirstOwn(l.addrs, l.rs, 0, id, r'.self))
            && (LooksUp(l, addr, check) && (SaysId(check, id) || r.self == Some(addr)) ==>
                  addr in r'.known && r'.known[addr].self && !r'.known[addr].live)
  {
    var none := Records(map[], r.self);
    SelfFrom(none, r.known, id, threshold, l.addrs, l.rs, 0);
    if LooksUp(l, addr, check) && (SaysId(check, id) || r.self == Some(addr)) {
      var i :| LooksUpFrom(l.addrs, l.rs, 0, i, addr) && l.rs[i] == check;
      OwnIsNotLive(none, r.known, id, threshold, l.addrs, l.rs, 0, i, addr);
    }
  }
}
