# Target allocation, verified

A Dafny model of the target allocator of a Prometheus exporter and of the pieces of the exporter it drives. The
allocator keeps a list of replicas that heartbeat to it, places every target on one of them by rendezvous hashing weighted
by capacity with bounded loads, and hands each replica a bundle of configuration and targets. A replica writes its bundle
into a cache directory and reloads it as one transaction. Several allocator instances elect one that asks the discovery
sources, and the others take what it found.

Run `dafny verify dfyconfig.toml` to check the project.

## What is in it

- `FixedLog`, `Scoring`, `TrueScore`, `Placement`, `Placing`, `PlacementOrder`, `Rendezvous`: the placement. The
  fixed-point logarithm and its error, the comparison of scores as one total order and against the true scores, the pick
  with its fast path, the bounded pass and the order of it, the routing of a job's targets, and plain rendezvous hashing as
  the case with room for everything.
- `AllocatorModel`: what each event does to the allocator, as functions of the state before it. `AllocatorObject` is the
  allocator itself, one object whose methods update its fields in loops, each proved to leave the state its function says.
  `AllocatorInvariant`, `AllocatorTimer`, `AllocatorWakes` and `AllocatorRuns` prove what holds in every reachable state,
  when the one timer misses nothing, and what holds over whole runs. `AllocatorMembers` says of the heartbeats and the clock
  alone who is listed, when, and what a member is answered, and `AllocatorFollower` how long every target drains.
  `AllocatorPlacement` puts the placement into the allocator, and `HeartbeatCheck` says which heartbeats it takes.
- `Election`, `ElectionFetches`, `PeerRound`, `PeerHistory`: the election of the instance that discovers, without and with
  the fetches that new leaders start from, one instance's round of checks and decision, and what it knows after many.
- `HeartbeatProtocol`: a replica's processes, a network that delays, reorders, duplicates and loses, and the allocator's
  record of the member.
- `Reload`: the configuration manager, its ticks, its flags for files that wait or could not be read, and replacements.
  `Reloader` is the manager as an object.
- `CacheDirectory`: the cache directory as a file system in which every call may fail, reads too, and the process may stop
  after any. `faults` counts the calls that failed and that what asked for them fails with, `ignored` those whose failure is
  let be. `Replica` joins the directory and the manager: a bundle swapped in and reloaded by the manager itself.
- `Binary`, `BinaryPlaces`, `Utf8`, `Naming`, `Digest`: the binary decoder, fields at offsets, and its text, the names of
  discovered targets, the generation and the files of a bundle.
- `Common`, `Ordering`: what the others share.

Every method that holds a lock in the program is one step here. Time is in milliseconds, weights, capacities and the
balance factor are in thousandths, and sums of weights are unbounded where the program has 64 bits; the logarithm is in
64-bit words. SHA-256 is a function about which nothing is assumed, but where a lemma says that digests do not collide.
Loading a file, checking two files against each other, and the check of a bundle are functions given as parameters.
Generations of bundles stand for their contents in the allocator: equal bundles, equal generations.

## Where the code and what it promises differ

- A heartbeat cannot bring back a member that shut down if it is of the same process or the one replaced; one of a process
  before that can (`HeartbeatProtocol.RevivedExactly`, `ThirdProcessRevives`), and so can one of an earlier process the
  allocator never heard, since one retired instance is remembered.
- A pair of files that loads and agrees is in force after a quiet tick. Only a target file that may be absent can be
  overlooked: removed, it stays in force until something else has the files read, and read as absent, it stays out when it
  comes back with the time, size and mode it had (`Reload.StillForATick`, `OverlookedForGood`).
- The cache directory is what the client says of it as long as it can be read. A listing that fails is taken for one of no
  links, and a ..data that cannot be read for none. A swap that could not read ..data removes it when it is put back, and
  one that could not list the links removes them all, which no repair sees (`CacheDirectory.RestoredExactly`,
  `AllLinksLost`). A discard that cannot read ..data removes the directory it names (`Cache.Discard`, `DiscardedExactly`,
  `NamedTreeLost`), and with none in force a bundle is written over the one in use that could not be read
  (`Cache.Prepare`). At the start a bundle that could not be read is removed (`TidiedExactly`).
- Followers of a settled election agree on the leader only if the discoverer has the lowest address or nobody knows its
  own (`Election.FollowersAgree`, `FollowersApart`): one that knows its address follows the lowest address even where that
  follows another.
- A text up to a NUL with a length near the largest int passes the check of the layout and can put the end of a slice
  before its start (`Binary.DecodePanicsExactly`, `ALongTextPanics`).
- A change of the inputs that comes after a member's time to live has run out, and before the wake for it, can leave no wake
  (`AllocatorTimer.LateInputsMissTheWake`, `AllocatorWakes.AWakeMissed`) until something else happens; exactly when is
  `AllocatorWakes.InputsQuietExactly`. One that comes before does not (`AllocatorWakes.NoMissedWake`). A wake that had
  already begun still runs after the change.
- The comment on text fields says each byte that is not UTF-8 is read as U+FFFD. It is so exactly when no two of them come
  one after the other (`Utf8.PerByteExactly`, `TwoAreOne`); a run of them is read as one (`Utf8.RunIsOne`).

## Model

| member | source | states |
|---|---|---|
| FixedLog.Log2Fixed | internal/allocator/placement.go:333-352 | the loop over 64-bit words returns the logarithm LogBits defines for every v from 1 to 2^63, and no word overflows on the way |
| FixedLog.LogBounds | internal/allocator/placement.go:320-352 | for every v and every precision up to 32 bits the result r has 2^r <= v^(2^k) < 2^r times 1025/512: never above the true logarithm, and the truncation of every squaring together costs less than two units of the last place |
| FixedLog.LogMonotone | internal/allocator/placement.go:330-352 | a larger argument never has a smaller truncated logarithm |
| FixedLog.LogAtMost63 | internal/allocator/placement.go:320-352 | the result is at most 63 whole bits, and exactly that only at 2^63 |
| TrueScore.NegLogIs | internal/allocator/placement.go:320-328 | for every hash h the negated logarithm is 63 bits minus a number e with 2^e <= (h/2+1)^(2^32) < 2^e times 1025/512: -log2 of the hash as a fraction of 2^63 in fixed point, up by less than two units of the last place |
| TrueScore.ExceedsInLogs | internal/allocator/placement.go:283-318 | a true score, capacity over -log2 of the hash, compared by powers, that exceeds another by more than the rounding is the higher computed score too |
| TrueScore.PickIsTrue | internal/allocator/placement.go:235-267 | a member with room whose true score exceeds another's by more than the rounding is never passed over for that other; of two of one capacity the one of the higher hash never is |
| Scoring.NegLogZero | internal/allocator/placement.go:320-328 | the negated logarithm is 0 for the two top hashes and for no other |
| Scoring.BetterIsLexicographic | internal/allocator/placement.go:283-318 | comparing hashes for equal capacities and truncated logarithms otherwise is one lexicographic order by capacity over negated logarithm, hash and name |
| Scoring.BetterIsStrictOrder | internal/allocator/placement.go:283-318 | the comparison is a strict total order on scores of distinct names |
| Scoring.Pick | internal/allocator/placement.go:235-267 | the fast path and the scan return what sorting every score and taking the first with room, or else the least loaded, returns: the pick as IsPick defines it, by the ranking that PickIsTrue ties to the true scores |
| Scoring.PickUnique | internal/allocator/placement.go:235-267 | no two members can both be the pick, whatever order the members are listed in |
| Scoring.PickSortedIsPick | internal/allocator/placement.go:235-267 | the sorted reference form meets the definition of the pick: best with room, or else least loaded, best of those alike |
| Scoring.BestWithRoom | internal/allocator/placement.go:242-252 | the member of the best score, when it has room, is the pick without the others being ordered |
| Scoring.LeastLoadedIsLeast | internal/allocator/placement.go:257-275 | the scan without room ends at a member no other is less loaded than, relative to capacity, the earlier of those alike |
| Placement.PlaceConserves | internal/allocator/placement.go:177-210 | every unit has exactly one owner, a member; every load is the weight of what the member owns; the loads add up to the total |
| Placement.PlaceIsBounded | internal/allocator/placement.go:177-233 | for a factor of at least 1 every load minus the last unit put on it is within the bound, and a load past its bound is past it by no more than that unit: load times all capacity <= total times its own + w times the others |
| Placement.KeptOverPass | internal/allocator/placement.go:195-207 | whatever holds of a load and its last unit at the start and at every choice holds of every member all through the pass |
| Placement.PickWithinBound | internal/allocator/placement.go:235-267 | the member picked was within its bound before, so one over its bound is given nothing more |
| Placement.Mediant | internal/allocator/placement.go:227-275 | a member no more loaded for its capacity than any other is no more loaded than all of them together |
| Placement.PlaceIgnoresOrder | internal/allocator/placement.go:177-210 | the plan is the same for every permutation of the units and of the members with their capacities |
| Placement.SortUnitsIgnoresOrder | internal/allocator/placement.go:456-464 | the order of the pass depends on the set of units alone |
| PlacementOrder.PassAscends | internal/allocator/placement.go:456-464 | the pass has each unit once, ascending by the hash of the key and, of one hash, by the key |
| PlacementOrder.PlacedInTurn | internal/allocator/placement.go:177-210 | each unit is put on the pick for it, given of each member the weight of the units before it that are put there |
| PlacementOrder.NoOneIsPassedOver | internal/allocator/placement.go:177-267 | over a whole placement no member with room for a unit in its turn has a true score that exceeds, by more than the rounding, that of the member the unit is put on, nor the same capacity and a higher hash |
| PlacementOrder.DisplacedExactly | internal/allocator/placement.go:395-418 | what is placed anew for a job is every key whose placed member, if any, is not of the pool, with the weight of all the job's targets of it |
| Ordering.LessExactly | internal/allocator/placement.go:314-318 | names are compared by the first byte they differ in, a shorter one before one it begins |
| Placing.Place | internal/allocator/placement.go:177-210 | the loops of the placement compute the specified plan and total from units in any order |
| Placing.Bounds | internal/allocator/placement.go:212-224 | each bound is the factor times the fair share of total, rounded down |
| Placing.RouteJob | internal/allocator/placement.go:388-443 | a job's targets go to the member the placement chose when the job is routed to it, and the rest by a bounded pass over the pool that starts from the loads in force; nowhere without a pool |
| Placing.RoutingIsSound | internal/allocator/placement.go:388-443 | every target of a job goes to a member of the pool, the targets of one key to one member, and a placed key to its own member |
| Placing.ListingDoesNotMatter | internal/allocator/placement.go:388-443 | the displaced units in the order of the pass are the same for every iteration order of the map they are collected in |
| Rendezvous.Owner | internal/allocapi/allocapi.go:264-283 | returns a member that wins against every other by hash and name, or none without members |
| Rendezvous.OwnerUnique | internal/allocapi/allocapi.go:264-283 | one member only wins, so the order of the members does not matter |
| Rendezvous.OwnerAfterAdding | internal/allocapi/allocapi.go:264-283 | adding a member moves exactly the keys it now wins |
| Rendezvous.OwnerAfterRemoving | internal/allocapi/allocapi.go:264-283 | removing a member moves exactly its own keys |
| Rendezvous.PlaceIsOwner | internal/allocapi/allocapi.go:264-283 | with capacities alike and a balance factor of at least the number of members the placement of every unit is Owner's member, whatever the weights |
| AllocatorObject.Allocator.constructor | internal/allocator/allocator.go:222-279 | a new allocator holds the initial state, bundles built and timer arranged |
| AllocatorObject.Allocator.Heartbeat | internal/allocator/allocator.go:289-341 | the new state is that of one heartbeat step; malformed, refused and answered are told apart exactly, and an answer carries the member's bundle after the step |
| HeartbeatCheck.ValidAddressIs | internal/allocator/server.go:169-181 | an address is taken exactly when it is a host, not empty and without colons or in brackets, and a decimal port from 1 to 65535 |
| HeartbeatCheck.AcceptsExactly | internal/allocator/server.go:150-167 | a heartbeat of names in ASCII is taken exactly when its member is not all spaces and of at most 253 bytes, its process of 1 to 64, its number not 0, and its address a host and a port |
| AllocatorMembers.TakenExactly | internal/allocator/allocator.go:294-351 | a heartbeat that is late, of a member not held that shuts down, or refused changes no member; any other is what its member is held as: seen now, with its flag, process, number and capacity within bounds, the process before it retired |
| AllocatorMembers.RefusedExactly | internal/allocator/allocator.go:310-318 | a heartbeat is refused exactly of a member not held, when as many as the bound are held that were heard from within their time to live and do not say they shut down |
| AllocatorMembers.AnswersExactly | internal/allocator/allocator.go:355-381 | nothing before the first list; from then on a member of the list is answered with exactly the targets it owns and those that drain on it, and any other with the configuration and no target |
| AllocatorMembers.HeardExactly | internal/allocator/allocator.go:294-304 | over any run until the first list forms, the first heartbeat is that of the first well-formed one, and the longest interval that of all of them within one second and two minutes, those ignored or refused too |
| AllocatorObject.Allocator.LiveCount | internal/allocator/allocator.go:413-425 | counts exactly the live members |
| AllocatorObject.Allocator.UpdateAll | internal/allocator/allocator.go:433-473 | the whole state after an update, as one function of the state before: proposal, list, drains, bundles only where rebuilt, timer; ProposedExactly, TakesEffectExactly, StepDrainsExactly and AnswersExactly say what that is |
| AllocatorMembers.ProposedExactly | internal/allocator/allocator.go:428-456 | an update proposes exactly the members held that do not say they shut down and were heard from within their time to live, in order, each with its own capacity; another list than before is proposed from now on |
| AllocatorMembers.TakesEffectExactly | internal/allocator/allocator.go:475-524 | an update puts the proposal in effect exactly when it has been proposed for the settle time and differs from the list in members or in capacities alone; the first, when it is not empty and no sooner than the settle time or the interval after the start, nor the longest interval after the first heartbeat |
| AllocatorMembers.StepIsUpToDate | internal/allocator/allocator.go:433-473 | after every wake, and every heartbeat that is taken in, nothing is left to do, and the wake for what is next is arranged |
| AllocatorMembers.StaysOut | internal/allocator/allocator.go:428-456 | over any run, from the heartbeat that says a member shuts down, and until one is taken in that does not, the member is not proposed |
| AllocatorObject.Allocator.ListLive | internal/allocator/allocator.go:436-453 | the live names in order, and the members left: those silent for the TTL and in no list forgotten |
| AllocatorObject.Allocator.ListTakesEffect | internal/allocator/allocator.go:526-559 | the proposal in effect, what moved from a member still in the list draining there, and drains that lost their reason gone |
| AllocatorObject.Allocator.HandOverTargets | internal/allocator/allocator.go:561-586 | what the inputs moved drains on who had it, and stale drains are gone |
| AllocatorObject.Allocator.DropStaleDrains | internal/allocator/allocator.go:588-596 | exactly the drains of targets gone, or back with the member draining them, are dropped |
| AllocatorObject.Allocator.TakeSnapshotDrains | internal/allocator/peers.go:897-941 | the drains after a leader's snapshot, each as AllocatorFollower.TakesExactly says, and whether the set of what drains changed |
| AllocatorObject.Allocator.PutInputsInForce | internal/allocator/discovery_runtime.go:302-348 | the whole state after a change of the inputs or a snapshot, skipping the rebuild where the code does; whether the inputs changed |
| AllocatorObject.Allocator.RebuildBundles | internal/allocator/allocator.go:671-712 | every bundle made again: each member of the list has exactly its share |
| AllocatorObject.Allocator.ScheduleWake | internal/allocator/allocator.go:623-660 | the timer is the least of the times something is due, or now when that is past, or none |
| AllocatorInvariant.StepKeeps | internal/allocator/allocator.go:289-712 | every event of any kind keeps the invariant: bundles as a rebuild would make them, and drains only of present targets on members of the list that do not own them |
| AllocatorInvariant.RunKeeps | internal/allocator/allocator.go:289-712 | the invariant holds in every state of every run from the start |
| AllocatorInvariant.BundlesHoldShares | internal/allocator/allocator.go:671-712 | under the invariant the bundles are the list's, and a member's holds exactly what it owns and what drains on it, with the configuration in force |
| AllocatorInvariant.UpdateKeeps | internal/allocator/allocator.go:433-473 | an update keeps the invariant although it skips the rebuild when nothing settled or ran out |
| AllocatorInvariant.PutInForceKeeps | internal/allocator/discovery_runtime.go:302-348 | a change of the inputs keeps it although the rebuild is skipped when a snapshot changes neither inputs nor what drains |
| AllocatorPlacement.PlacementIsGood | internal/allocator/placement.go:93-175 | the allocator's own placement gives what the invariants assume of a placement, so they hold of it |
| AllocatorPlacement.EveryTargetIsServed | internal/allocator/allocator.go:671-712 | in every reachable state with a list each target is in its owner's bundle, and in another's only while it drains there |
| AllocatorTimer.UpdateIsUpToDate | internal/allocator/allocator.go:433-518 | after an update the list proposed is the live one, nothing is due, no drain has run out, and the wake arranged is the one for that state |
| AllocatorTimer.WakesAhead | internal/allocator/allocator.go:623-660 | after an update every wake lies ahead, and the timer is one of them: no wake is for nothing |
| AllocatorTimer.QuietUntilWake | internal/allocator/allocator.go:433-518 | no missed wake: an update at any time before the timer changes nothing but to forget silent members that are in no list |
| AllocatorTimer.QuietChecks | internal/allocator/allocator.go:433-518 | any number of updates before the timer together change nothing else either |
| AllocatorTimer.InputsScheduled | internal/allocator/allocator.go:623-660 | a change of the inputs before the timer is due arranges the wakes right too |
| AllocatorWakes.InputsQuietExactly | internal/allocator/allocator.go:623-660 | a change of the inputs at any time leaves every update before the wake without effect, but on silent members that are in no list, exactly when the proposed list was the live one, or its settle time or a drain handed over has run out |
| AllocatorWakes.EndedBefore | internal/allocator/allocator.go:561-596 | with intervals above 0 a drain that has run out after a change of the inputs had run out before it |
| AllocatorWakes.NoMissedWake | internal/allocator/allocator.go:433-669 | no missed wake over any run of heartbeats, applied, ignored or refused, wakes, snapshots and changes of the inputs before the wake: an update before the timer does nothing but forget silent members that are in no list and arrange the wake again |
| AllocatorTimer.LateInputsMissTheWake | internal/allocator/allocator.go:640-644 | when every member has fallen silent before the change and nothing drains, no wake is left although an update would propose the empty list |
| AllocatorWakes.AWakeMissed | internal/allocator/allocator.go:623-660 | a run from the start, of one heartbeat and a change of the inputs when the member's time to live has run out, after which no wake is left and an update would propose the empty list |
| AllocatorRuns.StepProposes | internal/allocator/allocator.go:433-518 | a step changes the proposal only at its own time, and the list only to a proposal that is due |
| AllocatorRuns.ListHasHeld | internal/allocator/allocator.go:475-518 | over any run the list changes only to a proposal that was the same at every event for the settle time; the first list is not empty and comes no sooner than the settle time, the interval, and the longest interval heard after the first heartbeat |
| AllocatorRuns.StepKeepsDrain | internal/allocator/allocator.go:526-596 | no event ends a drain early, unless its member leaves, its target goes, or the member owns it again; for a drain of the discovered targets, but for a snapshot of a leader's; no insertion shortens one |
| AllocatorRuns.MoveDrains | internal/allocator/allocator.go:526-586 | a target that any change made here, of the list, the inputs or the discovered targets, moves off a member still in the list drains there for its interval |
| AllocatorRuns.NoScrapeGap | internal/allocator/allocator.go:526-596 | over any run, from the event that moves a target and until its interval has passed, the member's bundle holds the target; for a move by the discovered targets over any run without a leader's snapshot |
| AllocatorFollower.StepDrainsExactly | internal/allocator/allocator.go:526-596 | what drains after any event but a snapshot drained before until the same time, or was taken off its member by that event and drains from then on for exactly its interval |
| AllocatorFollower.TakesExactly | internal/allocator/peers.go:897-941 | after a snapshot that lists a drain once, on a member of the list that does not own the target, it lasts for exactly what is left of it, or for the longer of that and the instance's own reason for it; one not listed lasts for the own reason alone, and goes without one |
| AllocatorFollower.NoFollowerGap | internal/allocator/peers.go:897-941 | over any run of a follower, from a snapshot that lists a drain and until what was left of it has passed, the member's bundle holds the target, while every later snapshot lists the drain for no shorter |
| AllocatorRuns.FollowerAgrees | internal/allocator/peers.go:897-966 | with the leader's list and inputs a follower's discovered drains after a snapshot are the leader's, exactly when each of the leader's had time left and less than the longest believed |
| Election.ChooseLeader | internal/allocator/peers.go:209-246 | the loop decides as specified |
| Election.FollowDecides | internal/allocator/peers.go:216-246 | an instance of no known address leads exactly when every discoverer yields to it, and else follows one that discovers |
| Election.FollowsExactly | internal/allocator/peers.go:209-246 | of known address an instance leads when it is lower than the first live peer and else follows that; of none it follows the first peer that discovers and knows its address, and else, unless it leads, a discoverer of the lowest id |
| Election.DecisionIs | internal/allocator/peers.go:209-246 | among the instances of a world: known addresses decide by the lowest address, the others by yielding |
| Election.Converges | internal/allocator/peers.go:209-246 | after two passes in any interleaving exactly one instance discovers, and no later round changes anything |
| ElectionFetches.ConvergesWithFetches | internal/allocator/peers.go:494-670 | with the fetches that new leaders start from, and rounds and ends of fetches in any interleaving: after two passes, the end of the fetches under way and two more passes exactly one discovers, none fetches to start from, and nothing later changes that |
| Election.FollowersAgree | internal/allocator/peers.go:209-246 | all followers take snapshots of the one that discovers exactly when it has the lowest address or nobody knows its address |
| Election.FollowersApart | internal/allocator/peers.go:209-246 | a settled world of three instances, reached from one in which none discovers, whose followers follow different instances |
| PeerRound.Peers.Round | internal/allocator/peers.go:494-619 | a round records every check and decides among the live peers as the election does; it discovers exactly while it leads and no fetch to start from is under way, which only one that comes to lead and never took a snapshot begins; a follower fetches from its leader; the leader changes are counted; the instance takes the turn that the election with fetches gives it |
| PeerRound.Peers.FetchEnds | internal/allocator/peers.go:646-670 | whatever a fetch comes to, after it an instance discovers exactly while it leads; it is the end of a fetch in the election |
| PeerRound.Peers.Record | internal/allocator/peers.go:525-561 | the checks recorded one after the other, going on from what was known of each address; PeerHistory says what that comes to over rounds |
| PeerRound.LiveExactly | internal/allocator/peers.go:525-561 | a peer is live exactly when it has answered, fewer checks than the threshold failed since its last answer, and none found it shutting down; its answer is that last one |
| PeerHistory.LiveOverRounds | internal/allocator/peers.go:525-561 | over any sequence of rounds, from the first that looks an address up once in each, the peer there is live exactly when it has answered, fewer rounds than the threshold failed to reach it since, and none found it shutting down; its answer is its last one |
| PeerHistory.RoundGoesOn | internal/allocator/peers.go:525-561 | a round goes on from what was known of an address it looks up, and forgets one it does not |
| PeerHistory.LearnsItself | internal/allocator/peers.go:525-544 | an instance keeps the address it knows for its own, and one that knows none takes the first that answers as itself; such an address is no live peer |
| PeerHistory.OthersAreLive | internal/allocator/peers.go:575-580 | the peers it decides by are exactly the live ones other than itself of the addresses looked up, with their last answers, in the order of the addresses |
| PeerRound.RoundIsElections | internal/allocator/peers.go:494-619 | a round in which every other instance answers is the election's round of that instance |
| HeartbeatProtocol.BeatReceives | internal/allocator/allocator.go:289-351 | a heartbeat makes of its member's record what the protocol says, and no other record but forgets some |
| HeartbeatProtocol.RunKeeps | internal/allocator/allocator.go:294-351 | over any run of starts, shutdowns, sends and deliveries in any order: one process's heartbeats have distinct numbers, and their flag never goes back |
| HeartbeatProtocol.ShutdownIsSaid | internal/allocclient/client.go:337-351 | over any run, every heartbeat a process sends after its shutdown says so and is numbered past all it had sent |
| HeartbeatProtocol.RevivedExactly | internal/allocator/allocator.go:343-351 | in any reachable state a member known to shut down is made live by exactly the heartbeats of a process that is neither the one that said so nor the one it replaced, and that do not say so themselves |
| HeartbeatProtocol.StaysDown | internal/allocator/allocator.go:343-351 | over any stretch of a run without a third process's heartbeat the record held stays shut down |
| HeartbeatProtocol.ThirdProcessRevives | internal/allocator/allocator.go:346-351 | only one retired instance is remembered: a run of well-formed heartbeats in which a late one of the process before it makes the member live, though every process has shut down |
| HeartbeatProtocol.NewestWins | internal/allocator/allocator.go:294-351 | in whatever order and however often one process's heartbeats arrive the record ends with the newest |
| HeartbeatProtocol.OrderDoesNotMatter | internal/allocator/allocator.go:294-351 | two deliveries of the same heartbeats leave records that agree |
| Reload.Reloader.ReloadChanged | internal/config/config.go:2011-2029 | a tick reads what changed, what waits for it, and again what could not be read, and leaves the manager as specified |
| Reload.Reloader.ApplyFiles | internal/config/config.go:2094-2169 | the whole new state of a reload of either file or both, and whether something was refused |
| Reload.Reloader.SettleRead | internal/config/config.go:2139-2169 | both in force when they agree, or else the one that agrees with the other in force, and the rest waiting |
| Reload.BothSettle | internal/config/config.go:2139-2169 | of a configuration and a target file both read, both go in force when they agree, else the configuration when it agrees with the targets in force, else the targets when they agree with the configuration in force, and what does not waits |
| Reload.SeenIsNotRead | internal/config/config.go:2011-2083 | files that are as they were seen, and that could be read then, are not read again by a tick |
| Reload.Reloader.Replace | internal/config/allocatormode.go:115-147 | the whole new state of a replacement, and whether it is refused |
| Reload.Ask | internal/config/config.go:2171-2207 | a verdict kept is the verdict the check would give |
| Reload.ApplyAgrees | internal/config/config.go:2094-2169 | the pair in force agrees after any reload of any files |
| Reload.ApplyKeeps | internal/config/config.go:2094-2343 | a reload of one file or both, whatever of it can be read, loads or agrees, keeps what the flags and stamps say of either |
| Reload.RunKeeps | internal/config/config.go:2011-2169 | over any run of edits, ticks, reloads and replacements the pair in force agrees, and what was last read of a file is in force, or could not be read and is to be read again, or was refused for what its waits flag says |
| Reload.StillForATick | internal/config/config.go:1982-2029 | once the files have been still for a tick, two that load and agree are in force, whatever was written before in whatever order and whatever could not be read for a while; where a target file may be absent, exactly unless its going or coming back was overlooked |
| Reload.OverlookedForGood | internal/config/config.go:2038-2083 | where a target file may be absent, a run in which one that is removed stays in force, and one that comes back with the stamp it had stays out, and no further tick changes that |
| Reload.SettledIsQuiet | internal/config/config.go:2011-2029 | a further tick over files in force changes nothing |
| Reload.RefusedMeans | internal/config/config.go:2085-2092 | a reload of both files is refused exactly when they are not what ends up in force |
| Reload.ReplacingIsATransaction | internal/config/allocatormode.go:115-147 | accepted, the new files are in force with the new generation; refused and undone, the pair in force is the one before, even if one new file had gone in force alone, with the generation of the files before |
| Reload.GenerationIsOfTheFiles | internal/config/allocatormode.go:101-147 | over any run in which refused replacements are undone the pair in force names the generation of the files it was read from, so a refused replacement leaves the whole pair as it was, generation and all |
| Reload.ReplacingAgrees | internal/config/allocatormode.go:115-147 | whatever becomes of a replacement, what is in force agrees at every moment of it |
| CacheDirectory.Cache.Relink | internal/allocclient/cache.go:393-465 | with every name of the generation found, every state on the way is whole and of the old or the new generation; always, no generation's directory and no other entry is touched, and success links exactly the names and what the listing missed; every call may fail |
| CacheDirectory.RelinkedIsWhole | internal/allocclient/cache.go:428-465 | a relinked directory is whole exactly when each name of the generation's files was to be linked, or was linked and missed by the listing |
| CacheDirectory.Cache.MakeLink | internal/allocclient/cache.go:411-426 | a link is replaced in one rename, or nothing but the temporary link changes |
| CacheDirectory.Cache.Swap | internal/allocclient/cache.go:467-476 | the new generation in force, or the one before put back as far as that can be; every step allowed when it works or when it read enough to put back |
| CacheDirectory.RestoredExactly | internal/allocclient/cache.go:467-476 | putting back after a swap, done, leaves the directory whole and of the generation before exactly when the swap could read ..data and its listing missed no link of that generation but one that all later listings miss |
| CacheDirectory.AllLinksLost | internal/allocclient/cache.go:393-409 | one listing that fails at the swap of a bundle that is then refused: ..data names the generation before, which is not found as a cached bundle, and nothing of it is shown |
| CacheDirectory.Cache.WriteTree | internal/allocclient/cache.go:309-344 | every state on the way leaves what ..data names alone, unless that is the directory written, and then no writing that works is allowed; success leaves exactly the files |
| CacheDirectory.Cache.Repair | internal/allocclient/cache.go:258-288 | a swap or restore cut short is put right: ..data names the generation in force again; one that cannot be read is left only where none is in force |
| CacheDirectory.Cache.Discard | internal/allocclient/cache.go:250-256 | nothing but that generation's directory may go; its steps are allowed exactly when ..data can be read, or names another, or nothing went after all, and a discard that is done leaves what Discarded says |
| CacheDirectory.DiscardedExactly | internal/allocclient/cache.go:250-256 | a discard leaves a whole directory whole, and showing what it showed, exactly when ..data can be read or names another generation; otherwise no bundle is found and nothing is shown |
| CacheDirectory.Cache.Prepare | internal/allocclient/cache.go:174-248 | a bundle found in use, which is then not written, or written: its steps are allowed exactly when one is in force, ..data names another, the repair reads ..data, or the bundle in use is read to be unchanged; it fails exactly when a call does |
| CacheDirectory.NamedTreeLost | internal/allocclient/cache.go:239-256 | a directory with a bundle in use: a discard and a writing that cannot read ..data leave one in which nothing is shown and no bundle is found |
| CacheDirectory.Cache.RemoveOtherGenerations | internal/allocclient/cache.go:478-495 | what is in force stays, and what could be removed of the rest is |
| CacheDirectory.Cache.PutInForce | internal/allocclient/cache.go:196-229 | put in force exactly when no call that it needs fails and it loads; refused by the reload and put back, the directory is whole and of the generation before exactly when the swap had read enough; every step is allowed then |
| CacheDirectory.Cache.Apply | internal/allocclient/cache.go:174-229 | the outcome is Failed exactly when a call failed that a bundle needs, and otherwise Taken, with the generation in force, exactly when the bundle passes its check, is accepted and loads; when the reads of ..data by repair, swap and discard and the swap's listing work, over all its steps the directory is whole and of the generation linked, the one in force, or the new one, and the directory ..data names is never written or removed; taken means whole and in force with those files, and with no removal failing the others are gone |
| CacheDirectory.Cache.SyncOnce | internal/allocclient/client.go:854-907 | what was fetched, unless it was seen last or is in force, comes to be in force exactly when no call that it needs fails and it passes its check, is accepted and loads; a refused one is not tried again, one that could not be written is; with those reads a whole directory stays whole at every step |
| CacheDirectory.EveryMoment | internal/allocclient/cache.go:15-46 | at every moment of allowed steps, and so wherever the process stops, the generation found is one allowed, what the links show is its files exactly, and two moments of one generation show the same |
| Replica.Replica.Apply | internal/allocclient/cache.go:174-229 | with the manager's own reload in place of a yes or no: it fails exactly when a call does; else, when what is swapped in can be read, the bundle is taken exactly when it passes its check, is accepted, and its files load and agree; taken, the pair and generation in force and what the links show are of the new bundle; refused, whatever of it went in force alone, both are of the bundle before again, with the pair as it was, when the swap read enough and the files put back can be read |
| Replica.RefusedAsRead | internal/config/allocatormode.go:115-147 | files that are shown and can be read are refused by the reload exactly when they do not load or do not agree |
| Replica.Replica.Mend | internal/allocclient/cache.go:258-288 | a repair and the reload it makes keep the pair in force and the links of one bundle |
| Replica.Replica.Tick | internal/config/config.go:2011-2029 | a tick of the watch over the links keeps the pair, whatever of the files can be read |
| CacheDirectory.Tidy | internal/allocclient/cache.go:126-172 | the generation installed is found when it can be read, and of a directory that can be listed exactly what is to be removed and is not stuck goes; nothing else changes, and all is reported exactly when nothing was stuck |
| CacheDirectory.TidiedIsWhole | internal/allocclient/cache.go:126-172 | a tidied directory shows the bundle installed exactly, or nothing of the client's |
| CacheDirectory.TidiedHolds | internal/allocclient/cache.go:126-172 | with a bundle installed everything stays but a temporary link, other generations' directories, and a config.yaml or static-targets.yaml that does not link through it; with none, what is not the client's own and is neither of those two |
| CacheDirectory.TidiedExactly | internal/allocclient/cache.go:126-172 | with reads that fail a bundle installed stays so exactly when it was found and its links of config.yaml and static-targets.yaml could be read |
| CacheDirectory.TidyingKeeps | internal/allocclient/cache.go:126-172 | whatever removals fail, an installed bundle that is read stays installed and shows the same |
| Binary.DecodeBinary | internal/decode/binary.go:41-106 | the loop decodes as specified, and every slice it takes is in range |
| Binary.DecodedIsText | internal/decode/binary.go:29-32 | whatever the bytes of a body, all text in its document is UTF-8 |
| Utf8.ToTextIsText | internal/decode/binary.go:73-89 | what is made of the bytes of a text field is UTF-8, and is those bytes exactly when they were |
| Utf8.WidthExactly | internal/decode/binary.go:73-89 | what is taken for a character at the front of a text is the UTF-8 of one, as RFC 3629 has it, and none is missed: no overlong form, no surrogate, nothing past U+10FFFF |
| Utf8.PerByteExactly | internal/decode/binary.go:29-32 | each byte of no character is read as one U+FFFD exactly when no two of them come one after the other; otherwise what is read is shorter |
| Utf8.TwoAreOne | internal/decode/binary.go:73-89 | two such bytes, which are read as one |
| Utf8.RunIsOne | internal/decode/binary.go:73-89 | in any text, a run of such bytes becomes one U+FFFD, however long it is, and what follows it is read as it is alone |
| Binary.DecodePanicsExactly | internal/decode/binary.go:72-85 | a slice is out of range exactly when a text up to a NUL is reached whose start and length together pass the largest int |
| Binary.NeverPanics | internal/decode/binary.go:41-106 | no layout whose texts are shorter than that reads out of range, whatever the body |
| Binary.ALongTextPanics | internal/config/config.go:438-494 | a layout that is accepted, and a body, for which one is |
| Binary.LongerBody | internal/decode/binary.go:16-37 | a body that decodes gives the same document with anything after it |
| Binary.NumberDecodes | internal/decode/binary.go:108-163 | a number of any integer type reads back, in either byte order and two's complement |
| Binary.RangesAre | internal/decode/binary.go:125-163 | the whole numbers each integer type reads, in 1, 2, 4 or 8 bytes |
| Binary.NumbersTake | internal/decode/binary.go:46-106 | a field of numbers moves on by its bytes times its count, and fails as too short exactly when the body has fewer left |
| Binary.EncodeThenDecode | internal/decode/binary.go:41-163 | integers, lists of them and UTF-8 text encoded by a layout without offsets decode to the document they were, whatever follows |
| BinaryPlaces.WrittenIsDecoded | internal/decode/binary.go:41-106 | whatever the layout, with fields at offsets, ahead, back or over each other, a body that has each value of a document written at its field's place decodes to the document |
| BinaryPlaces.NumberIsRead | internal/decode/binary.go:108-119 | an unsigned number, at an offset or not, is read little-endian exactly when its field says so, or its layout and not the field, and big-endian otherwise |
| BinaryPlaces.BackAtAnOffset | internal/decode/binary.go:41-119 | a little-endian layout with a field back at an offset in big-endian order, and one after that |
| Naming.EscapeAddress | internal/allocator/expand.go:425-453 | the loop escapes as specified, and refuses exactly what holds another byte or comes out too long |
| Naming.EscapeIsHex | internal/allocator/expand.go:425-453 | a byte that is escaped is _ and the two digits of its upper-case hex |
| Naming.UnescapeEscape | internal/allocator/expand.go:425-434 | reading an escaped address from left to right gives the address back |
| Naming.EscapedIsUnmarked | internal/allocator/expand.go:408-417 | an escaped address has no upper-case letter right after a _ |
| Naming.AddressNamesApart | internal/allocator/expand.go:408-475 | the names of two addresses are the same exactly for one address, or for two that are hashed, begin alike and share their digests |
| Naming.NamesApart | internal/allocator/expand.go:408-423 | two targets share a name exactly when they are of one entry and one address, or of one entry and two such addresses |
| Naming.CheckEntries | internal/allocator/expand.go:81-109 | the check at load accepts exactly entries of distinct names none of which begins with another's and _ |
| Naming.HashedAddress | internal/allocator/expand.go:455-475 | the readable prefix of at most 48 bytes, a character of any number of bytes being one _, the mark and the digest |
| Digest.Generation | internal/allocapi/allocapi.go:203-221 | the digest is of the names in order and their contents, each with its length |
| Digest.InputInjective | internal/allocapi/allocapi.go:203-221 | bundles of other files have other input |
| Digest.GenerationsApart | internal/allocapi/allocapi.go:203-221 | with a hash that does not collide two bundles share a generation exactly when they hold the same |
| Digest.CheckFiles | internal/allocapi/allocapi.go:223-252 | the check accepts exactly files with a main configuration, of clean relative paths, none of which is a directory of another |
| Digest.CheckedFilesApart | internal/allocapi/allocapi.go:223-252 | files that are accepted, resolved from any directory, have places of their own strictly below it, none inside another |
| Digest.UncleanLeaves | internal/allocapi/allocapi.go:223-252 | a path that is not accepted which leads out of the directory |

## Left out

- AllocatorObject.Allocator.Heartbeat: the address a member's probes are sent to, which nothing here depends on, the log of refused bundles, and the counters.
- AllocatorModel.Beat: members are kept as values in a map, where the program keeps references; nothing else holds them.
- AllocatorModel.Rebuild: the bundle files themselves, the history of generations for long polls, and waking those.
- AllocatorModel.PutInForce: how discovered targets are expanded into the inputs; the inputs before and after are given.
- Placing.Place: the list of units heavier than any fair share, which is only logged, and the plan kept from the last call.
- Placement.PlaceIsBounded: 64-bit sums of weights and the truncation of a bound to 64 bits; weights are far below that.
- PeerRound.Peers.Round: what the fetch beside the rounds does while it runs, the count of failed ones, a shutdown of the instance, and the log.
- HeartbeatProtocol.RunKeeps: heartbeats that are refused for how they are written, which change nothing; the intervals instances announce and the shortest and longest of them, several addresses, and that a shutting-down replica first waits for the heartbeat on its way.
- Reload.Reloader.ApplyFiles: descriptor and collector files the watch also stamps, checks of Python scripts; a file changed between its stamp and its reading is read again at the next tick in the program, and cannot be here.
- CacheDirectory.Cache.Apply: the order in which a crash of the machine, rather than of the process, leaves writes on disk; a stop is after some step. The reload is a yes or a no here, and the manager's own in `Replica`.
- Replica.Replica.Apply: a swap or a putting back that fails; the pair in force and the links can then be of two bundles until they are repaired or read again.
- CacheDirectory.Tidy: entries beginning with two dots other than the three kinds the client makes; they are left alone.
- Binary.EncodeThenDecode: floats, of which the bits are kept, and the float a u64 past the largest int is rounded to.
- Digest.CheckFiles: which of the checks is reported first; and names the cache directory keeps for itself, which its own check of a bundle refuses.
- HTTP handlers, tokens, DNS and Kubernetes, YAML and JSON Schemas, status pages and metrics: no state of their own that the above depends on.
- The bound on live members is checked for new members only, in the model as in the program; it is no invariant.
