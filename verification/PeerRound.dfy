/**
 * What one instance does in a round (internal/allocator/peers.go: round): whom it takes for live, what it decides, and
 * whose snapshot it fetches, beside the rounds.
 */
module PeerRound {
  import opened Common
  import opened Election
  import ElectionFetches
  import opened Ordering

  /** The outcome of a check: an answer, no answer, or the answer of one that is shutting down. */
  datatype Check = Answers(id: string, discovering: bool, known: bool) | Fails | ShutsDown

  datatype PeerState = PeerState(live: bool, fails: nat, self: bool, answer: Check)

  const UNHEARD := PeerState(false, 0, false, Fails)

  /** A check of another instance. */
  function Checked(st: PeerState, r: Check, threshold: nat): PeerState {
    if r.Answers? then PeerState(true, 0, st.self, r)
    else
      var fails := if r.ShutsDown? && st.fails + 1 < threshold then threshold else st.fails + 1;
      st.(fails := fails, live := st.live && fails < threshold)
  }

  function IsSelf(addr: nat, r: Check, self: Option<nat>, id: string): bool {
    self == Some(addr) || (r.Answers? && r.id == id)
  }

  function Before(known: map<nat, PeerState>, addr: nat): PeerState {
    if addr in known then known[addr] else UNHEARD
  }

  /**
   * The instance's address and its peers after the first n checks of a round; addresses not looked up are forgotten.
   */
  datatype Records = Records(known: map<nat, PeerState>, self: Option<nat>)

  function RecordOne(r: Records, was: map<nat, PeerState>, id: string, threshold: nat, addr: nat,
          check: Check): Records {
    var st := if addr in r.known then r.known[addr] else Before(was, addr);
    if IsSelf(addr, check, r.self, id) then
      Records(r.known[addr := st.(self := true, live := false, fails := 0)],
              if r.self.None? then Some(addr) else r.self)
    else Records(r.known[addr := Checked(st, check, threshold)], r.self)
  }

  /** The checks of a round from the k-th on. */
  function RecordFrom(r: Records, was: map<nat, PeerState>, id: string, threshold: nat, addrs: seq<nat>,
          rs: seq<Check>, k: nat): Records
    requires k <= |addrs| == |rs|
    decreases |addrs| - k
  {
    if k == |addrs| then r
    else RecordFrom(RecordOne(r, was, id, threshold, addrs[k], rs[k]), was, id, threshold, addrs, rs, k + 1)
  }

  function Recorded(was: map<nat, PeerState>, self: Option<nat>, id: string, threshold: nat, addrs: seq<nat>,
          rs: seq<Check>): Records
    requires |addrs| == |rs|
  {
    RecordFrom(Records(map[], self), was, id, threshold, addrs, rs, 0)
  }

  /** The live peers, in the order of the addresses. */
  function LiveOthers(known: map<nat, PeerState>, addrs: seq<nat>): seq<LivePeer> {
    if addrs == [] then [] else
      var rest, a := LiveOthers(known, addrs[..|addrs| - 1]), addrs[|addrs| - 1];
      if a in known && known[a].live && !known[a].self && known[a].answer.Answers? then
        rest + [LivePeer(a, known[a].answer.id, known[a].answer.discovering, known[a].answer.known)]
      else rest
  }

  /** One that is live has answered. */
  ghost predicate LiveAnswered(known: map<nat, PeerState>) {
    forall a | a in known && known[a].live :: known[a].answer.Answers?
  }

  /**
   * The fetch of a snapshot under way: a follower's of its leader's, or that of a new leader, which asks once it ends.
   */
  datatype Fetch = Idle | Of(addr: nat, seed: bool)

  predicate Seeds(f: Fetch) {
    f.Of? && f.seed
  }

  /** Without a leader of its own an instance leads. */
  lemma {:induction false} FollowsSome(others: seq<LivePeer>, k: nat, unranked: Option<LivePeer>, id: string,
          discovering: bool)
    requires k <= |others|
    ensures var c := Follow(others, k, unranked, id, discovering); c.leading || c.leader.Some?
    decreases |others| - k
  {
    if k < |others| {
      var o := others[k];
      if o.discovering && !o.known && (unranked.None? || Less(o.id, unranked.value.id)) {
        FollowsSome(others, k + 1, Some(o), id, discovering);
      } else {
        FollowsSome(others, k + 1, unranked, id, discovering);
      }
    }
  }

  class Peers {
    const id: string
    const threshold: nat
    var self: Option<nat>
    var known: map<nat, PeerState>
    var decided: bool
    var leader: Option<nat>
    var leading: bool
    var discovering: bool
    var leaderChanges: nat
    var took: bool
    var fetch: Fetch

    /**
     * One that leads asks the sources, or fetches to start from and asks once that has ended; one that follows does
     * neither.
     */
    ghost predicate Valid()
      reads this
    {
      && LiveAnswered(known)
      && (decided && leading <==> discovering || Seeds(fetch))
      && !(discovering && Seeds(fetch))
    }

    /** The instance as the election takes it. */
    function AsSeat(): ElectionFetches.Seat
      reads this
    {
      ElectionFetches.Seat(Instance(id, self.Some?, discovering), Seeds(fetch), took)
    }

    constructor (id': string, threshold': nat, self': Option<nat>)
      ensures id == id' && threshold == threshold' && self == self' && known == map[] && Valid()
      ensures !decided && !leading && !discovering && !took && fetch == Idle && leaderChanges == 0
    {
      id, threshold, self, known := id', threshold', self', map[];
      decided, leader, leading, discovering, leaderChanges, took, fetch := false, None, false, false, 0, false, Idle;
    }

    /** The checks of a round, recorded. */
    method Record(addrs: seq<nat>, rs: seq<Check>)
      modifies `known, `self
      requires |addrs| == |rs| && LiveAnswered(known)
      ensures Records(known, self) == Recorded(old(known), old(self), id, threshold, addrs, rs)
      ensures LiveAnswered(known)
    {
      var was, now: map<nat, PeerState> := known, map[];
      for i := 0 to |addrs|
        invariant RecordFrom(Records(now, self), was, id, threshold, addrs, rs, i) ==
          Recorded(was, old(self), id, threshold, addrs, rs)
        invariant LiveAnswered(now)
      {
        var addr := addrs[i];
        var st := if addr in now then now[addr] else Before(was, addr);
        if self == Some(addr) || (rs[i].Answers? && rs[i].id == id) {
          st := st.(self := true, live := false, fails := 0);
          if self.None? {
            self := Some(addr);
          }
        } else if rs[i].Answers? {
          st := st.(live := true, fails := 0, answer := rs[i]);
        } else {
          st := st.(fails := st.fails + 1);
          if rs[i].ShutsDown? && st.fails < threshold {
            st := st.(fails := threshold);
          }
          if st.live && st.fails >= threshold {
            st := st.(live := false);
          }
        }
        now := now[addr := st];
      }
      known := now;
    }

    method Live(addrs: seq<nat>) returns (others: seq<LivePeer>)
      requires LiveAnswered(known)
      ensures others == LiveOthers(known, addrs)
    {
      others := [];
      for i := 0 to |addrs|
        invariant others == LiveOthers(known, addrs[..i])
      {
        assert addrs[..i + 1][..i] == addrs[..i];
        if addrs[i] in known {
          var st := known[addrs[i]];
          if st.live && !st.self {
            others := others + [LivePeer(addrs[i], st.answer.id, st.answer.discovering, st.answer.known)];
          }
        }
      }
      assert addrs[..|addrs|] == addrs;
    }

    /** The rest of a round: what is fetched from now on, and whether the sources are asked. */
    method TakeUp(others: seq<LivePeer>, wasLeading: bool)
      modifies `fetch, `discovering
      requires decided && (wasLeading <==> discovering || Seeds(fetch)) && !(discovering && Seeds(fetch))
      requires leading || leader.Some?
      ensures leading ==>
        fetch == (if old(Seeds(fetch)) then old(fetch)
                  else if !wasLeading && !took && others != [] then Of(others[0].addr, true)
                  else Idle)
      ensures !leading ==> fetch == Of(leader.value, false)
      ensures discovering <==> leading && !Seeds(fetch)
    {
      if leading {
        if !wasLeading && !took && |others| > 0 {
          fetch := Of(others[0].addr, true);
          return;
        }
        if Seeds(fetch) {
          return;
        }
        fetch, discovering := Idle, true;
        return;
      }
      if fetch == Of(leader.value, false) {
        discovering := false;
        return;
      }
      fetch, discovering := Idle, false;
      fetch := Of(leader.value, false);
    }

    /**
     * A round: the checks, the decision, and whether this instance asks the sources. One that comes to lead and never
     * took a snapshot fetches one first.
     */
    method Round(addrs: seq<nat>, rs: seq<Check>)
      modifies this
      requires |addrs| == |rs| && Valid()
      ensures Valid() && decided && took == old(took)
      ensures Records(known, self) == Recorded(old(known), old(self), id, threshold, addrs, rs)
      ensures Choice(leader, leading) == ChooseLeaderOf(self, id, old(discovering), LiveOthers(known, addrs))
      ensures leaderChanges == old(leaderChanges) +
        if old(decided) && (leading != old(leading) || (!leading && leader != old(leader))) then 1 else 0
      ensures leading ==>
        fetch == (if old(Seeds(fetch)) then old(fetch)
                  else if !old(decided && leading) && !took && LiveOthers(known, addrs) != []
                  then Of(LiveOthers(known, addrs)[0].addr, true)
                  else Idle)
      ensures !leading ==> leader.Some? && fetch == Of(leader.value, false)
      ensures discovering <==> leading && !Seeds(fetch)
      ensures
        var before := ElectionFetches.Seat(Instance(id, self.Some?, old(discovering)), old(Seeds(fetch)), old(took));
        AsSeat() == ElectionFetches.Turn(before, leading, LiveOthers(known, addrs) == [])
    {
      Record(addrs, rs);
      var others := Live(addrs);
      var c := ChooseLeader(self, id, discovering, others);
      var changed := !decided || c.leading != leading || (!c.leading && c.leader != leader);
      if changed && decided {
        leaderChanges := leaderChanges + 1;
      }
      var wasLeading := decided && leading;
      FollowsSome(others, 0, None, id, old(discovering));
      decided, leader, leading := true, c.leader, c.leading;
      TakeUp(others, wasLeading);
    }

    /** The fetch under way ends, the snapshot taken or not: a new leader asks its sources either way. */
    method FetchEnds(taken: bool)
      modifies `took, `fetch, `discovering
      requires Valid()
      ensures Valid() && fetch == Idle
      ensures took <==> old(took) || (taken && old(fetch.Of? && !fetch.seed))
      ensures discovering <==> decided && leading
      ensures AsSeat() == ElectionFetches.Ended(old(AsSeat()), taken && old(fetch.Of?))
    {
      if fetch.Of? {
        if fetch.seed {
          if leading {
            discovering := true;
          }
        } else if taken {
          took := true;
        }
      }
      fetch := Idle;
    }
  }

  // ---- liveness ----

  function CheckedAll(st: PeerState, rs: seq<Check>, threshold: nat): PeerState {
    if rs == [] then st else Checked(CheckedAll(st, rs[..|rs| - 1], threshold), rs[|rs| - 1], threshold)
  }

  /** The last answer came at check j; all after it failed. */
  ghost predicate LastAnswer(rs: seq<Check>, j: nat) {
    j < |rs| && rs[j].Answers? && forall k | j < k < |rs| :: !rs[k].Answers?
  }

  /**
   * A peer counts as live exactly when it has answered, fewer checks than the threshold have failed since its last
   * answer, and none of those found it shutting down; and what it is taken to have said is that answer.
   */
  lemma {:induction false} LiveExactly(rs: seq<Check>, threshold: nat)
    requires threshold > 0
    ensures var st := CheckedAll(UNHEARD, rs, threshold);
            && (st.live <==> exists j: nat ::
                  LastAnswer(rs, j) && |rs| - 1 - j < threshold && forall k | j < k < |rs| :: !rs[k].ShutsDown?)
            && (forall j: nat | LastAnswer(rs, j) :: st.answer == rs[j])
    decreases |rs|
  {
    if rs != [] {
      LiveDetail(rs, threshold);
    }
  }

  /** With the count of failures, which the induction needs. */
  lemma {:induction false} LiveDetail(rs: seq<Check>, threshold: nat)
    requires threshold > 0
    ensures var st := CheckedAll(UNHEARD, rs, threshold);
            && (forall j: nat | LastAnswer(rs, j) ::
                  && st.answer == rs[j]
                  && (if forall k | j < k < |rs| :: !rs[k].ShutsDown? then st.fails == |rs| - 1 - j
                      else st.fails >= threshold)
                  && (st.live <==> st.fails < threshold))
            && (st.live ==> exists j: nat :: LastAnswer(rs, j))
    decreases |rs|
  {
    if rs != [] {
      var rs', r := rs[..|rs| - 1], rs[|rs| - 1];
      LiveDetail(rs', threshold);
      if r.Answers? {
        assert LastAnswer(rs, |rs| - 1);
      } else {
        forall j: nat ensures LastAnswer(rs, j) <==> LastAnswer(rs', j) {
        }
      }
    }
  }

  // ---- one instance among the others ----

  /**
   * The addresses of a world, and what checking each one says to instance i, which can reach itself only if it knows
   * itself.
   */
  ghost predicate Sees(w: World, i: nat, addrs: seq<nat>, rs: seq<Check>)
    requires i < |w|
  {
    && |addrs| == |w| == |rs|
    && (forall k | 0 <= k < |w| :: addrs[k] == k)
    && (forall k | 0 <= k < |w| && k != i :: rs[k] == Answers(w[k].id, w[k].discovering, w[k].known))
    && !rs[i].Answers?
  }

  /** An instance's peers are of a world in which it has the address i: it is live to itself nowhere. */
  ghost predicate Fits(known: map<nat, PeerState>, self: Option<nat>, w: World, i: nat)
    requires i < |w|
  {
    && self == (if w[i].known then Some(i) else None)
    && (i in known ==> !known[i].live)
    && forall a | a in known && a != i :: !known[a].self
  }

  /** The records of the first n addresses: each other instance live, with its answer. */
  ghost predicate Knows(r: Records, w: World, i: nat, rs: seq<Check>, n: nat)
    requires i < |w| == |rs| && n <= |w|
  {
    && r.self == (if w[i].known then Some(i) else None)
    && (forall k :: k in r.known <==> 0 <= k < n)
    && (forall k | 0 <= k < n && k != i :: r.known[k].live && !r.known[k].self && r.known[k].answer == rs[k])
    && (i < n ==> !r.known[i].live)
  }

  lemma KnowsNext(r: Records, known: map<nat, PeerState>, self: Option<nat>, w: World, i: nat, threshold: nat,
          rs: seq<Check>, n: nat)
    requires i < |w| == |rs| && n < |w| && Knows(r, w, i, rs, n) && Fits(known, self, w, i)
    requires if n == i then !rs[i].Answers? else rs[n].Answers? && rs[n].id != w[i].id
    ensures Knows(RecordOne(r, known, w[i].id, threshold, n, rs[n]), w, i, rs, n + 1)
  {
    assert n != i ==> !Before(known, n).self;
    assert n == i ==> !Before(known, n).live;
  }

  lemma {:induction false} RecordsWorld(r: Records, known: map<nat, PeerState>, self: Option<nat>, w: World, i: nat,
          threshold: nat, addrs: seq<nat>, rs: seq<Check>, n: nat)
    requires i < |w| && Sees(w, i, addrs, rs) && Fits(known, self, w, i) && n <= |addrs| && Knows(r, w, i, rs, n)
    requires forall k | 0 <= k < |w| && k != i :: rs[k].Answers? && rs[k].id != w[i].id
    ensures Knows(RecordFrom(r, known, w[i].id, threshold, addrs, rs, n), w, i, rs, |w|)
    decreases |addrs| - n
  {
    if n < |addrs| {
      var next := RecordOne(r, known, w[i].id, threshold, addrs[n], rs[n]);
      KnowsNext(r, known, self, w, i, threshold, rs, n);
      RecordsWorld(next, known, self, w, i, threshold, addrs, rs, n + 1);
    }
  }

  function Without(l: seq<LivePeer>, i: nat, n: nat): seq<LivePeer>
    requires i < |l| && n <= |l|
  {
    if n <= i then l[..n] else l[..i] + l[i + 1..n]
  }

  lemma WithoutNext(l: seq<LivePeer>, i: nat, n: nat)
    requires i < |l| && n < |l|
    ensures Without(l, i, n + 1) == Without(l, i, n) + if n == i then [] else [l[n]]
  {
  }

  /** The records list the peers of l, but for the one at i, whose addresses are their places. */
  ghost predicate ListedAs(known: map<nat, PeerState>, addrs: seq<nat>, l: seq<LivePeer>, i: nat) {
    && i < |l| == |addrs|
    && forall k | 0 <= k < |l| ::
         addrs[k] in known && LiveOthers(known, [addrs[k]]) == if k == i then [] else [l[k]]
  }

  lemma ListsNext(known: map<nat, PeerState>, addrs: seq<nat>, n: nat)
    requires n < |addrs|
    ensures LiveOthers(known, addrs[..n + 1]) == LiveOthers(known, addrs[..n]) + LiveOthers(known, [addrs[n]])
  {
    assert addrs[..n + 1][..n] == addrs[..n];
    assert [addrs[n]][..0] == [];
    assert LiveOthers(known, []) == [];
  }

  lemma {:induction false} ListsWorld(known: map<nat, PeerState>, addrs: seq<nat>, l: seq<LivePeer>, i: nat, n: nat)
    requires ListedAs(known, addrs, l, i) && n <= |l|
    ensures LiveOthers(known, addrs[..n]) == Without(l, i, n)
    decreases n
  {
    if n > 0 {
      ListsWorld(known, addrs, l, i, n - 1);
      ListsNext(known, addrs, n - 1);
      WithoutNext(l, i, n - 1);
    }
  }

  lemma KnowsLists(r: Records, w: World, i: nat, addrs: seq<nat>, rs: seq<Check>)
    requires i < |w| && Sees(w, i, addrs, rs) && Knows(r, w, i, rs, |w|)
    ensures ListedAs(r.known, addrs, Listing(w), i)
  {
    forall k | 0 <= k < |w| ensures LiveOthers(r.known, [addrs[k]]) == if k == i then [] else [Listing(w)[k]] {
      assert [addrs[k]][..0] == [];
      assert LiveOthers(r.known, []) == [];
    }
  }

  /** A round of the instance at i in which every other answers is its round in the election. */
  lemma RoundIsElections(known: map<nat, PeerState>, self: Option<nat>, w: World, i: nat, threshold: nat,
          addrs: seq<nat>, rs: seq<Check>)
    requires i < |w| && DistinctIds(w) && Sees(w, i, addrs, rs) && Fits(known, self, w, i)
    ensures var r := Recorded(known, self, w[i].id, threshold, addrs, rs);
            && Fits(r.known, r.self, w, i)
            && ChooseLeaderOf(r.self, w[i].id, w[i].discovering, LiveOthers(r.known, addrs)) == Decision(w, i)
  {
    forall k | 0 <= k < |w| && k != i ensures rs[k].Answers? && rs[k].id != w[i].id {
      assert w[k].id != w[i].id;
    }
    RecordsWorld(Records(map[], self), known, self, w, i, threshold, addrs, rs, 0);
    KnownIsElections(Recorded(known, self, w[i].id, threshold, addrs, rs), w, i, addrs, rs);
  }

  lemma KnownIsElections(r: Records, w: World, i: nat, addrs: seq<nat>, rs: seq<Check>)
    requires i < |w| && Sees(w, i, addrs, rs) && Knows(r, w, i, rs, |w|)
    ensures Fits(r.known, r.self, w, i)
    ensures ChooseLeaderOf(r.self, w[i].id, w[i].discovering, LiveOthers(r.known, addrs)) == Decision(w, i)
  {
    KnowsLists(r, w, i, addrs, rs);
    ListsOthers(r.known, addrs, w, i);
  }

  lemma ListsOthers(known: map<nat, PeerState>, addrs: seq<nat>, w: World, i: nat)
    requires i < |w| && ListedAs(known, addrs, Listing(w), i)
    ensures LiveOthers(known, addrs) == Others(w, i)
  {
    var l := Listing(w);
    ListsWorld(known, addrs, l, i, |l|);
    assert addrs[..|l|] == addrs;
    assert l[i + 1..|l|] == l[i + 1..];
  }
}
