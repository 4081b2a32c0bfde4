/**
 * The reload of the configuration and the static target file (internal/config/config.go: Manager; allocatormode.go:
 * ReloadReplacing). Every reload runs under one lock, so each is one step over the files as they are on disk.
 */
module Reload {
  import opened Common

  /**
   * What reading and checking make of a file. A stamp is a file's time, size and mode, and stands for its content: two
   * files of one stamp hold the same. absentTargets says a target file that does not exist is one without targets.
   */
  datatype Checks = Checks(
    configAt: nat -> string, targetsAt: nat -> string,
    configLoads: string -> bool, targetsLoad: string -> bool, agrees: (string, string) -> bool,
    noTargets: string, absentTargets: bool, hasTargets: bool)

  /** A target file without targets agrees with every configuration. */
  ghost predicate GoodChecks(k: Checks) {
    forall c :: k.agrees(k.noTargets, c)
  }

  /** A file: it does not exist, or cannot even be looked at, or is there, of a stamp, and can be read or not. */
  datatype OnDisk = Absent | Hidden | There(stamp: nat, readable: bool)

  datatype Disk = Disk(config: OnDisk, targets: OnDisk)

  /** What is in force; no target file agrees with every configuration. */
  datatype Pair = Pair(config: string, targets: Option<string>, generation: string)

  /**
   * generation is that of the files at the manager's paths; seen are the stamps last read; a file waits that was
   * refused for the other one, and is unread that was refused because it could not be read. targetsMissed says the
   * target file did not exist when it was last read.
   */
  datatype Manager = Manager(
    pair: Pair, generation: string,
    configWaits: bool, targetsWaits: bool,
    configUnread: bool, targetsUnread: bool,
    configSeen: nat, targetsSeen: nat,
    targetsMissed: bool)

  predicate Agree(k: Checks, t: Option<string>, c: string) {
    t.None? || k.agrees(t.value, c)
  }

  predicate PairAgrees(k: Checks, p: Pair) {
    Agree(k, p.targets, p.config)
  }

  // ---- reading ----

  predicate Readable(f: OnDisk) {
    f.There? && f.readable
  }

  function LoadConfig(k: Checks, d: Disk): Option<string> {
    if Readable(d.config) && k.configLoads(k.configAt(d.config.stamp)) then Some(k.configAt(d.config.stamp)) else None
  }

  /** The target file is taken for one without targets. */
  predicate TakenForNone(k: Checks, d: Disk) {
    k.absentTargets && d.targets.Absent?
  }

  function LoadTargets(k: Checks, d: Disk): Option<string> {
    if TakenForNone(k, d) then Some(k.noTargets)
    else if Readable(d.targets) && k.targetsLoad(k.targetsAt(d.targets.stamp)) then Some(k.targetsAt(d.targets.stamp))
    else None
  }

  function Seen(f: OnDisk, before: nat): nat {
    if f.There? then f.stamp else before
  }

  /**
   * The configuration read: its stamp seen, and refused on its own when it does not load, to be read again if
   * unreadable.
   */
  function ConfigRead(k: Checks, d: Disk, m: Manager): Manager {
    var m1 := m.(configSeen := Seen(d.config, m.configSeen));
    if LoadConfig(k, d).None? then m1.(configWaits := false, configUnread := !Readable(d.config)) else m1
  }

  function TargetsRead(k: Checks, d: Disk, m: Manager): Manager {
    var m1 := m.(targetsSeen := Seen(d.targets, m.targetsSeen), targetsMissed := TakenForNone(k, d));
    if LoadTargets(k, d).None? then m1.(targetsWaits := false, targetsUnread := !Readable(d.targets)) else m1
  }

  // ---- installing and rejecting ----

  /** Either may be none, to keep the one in force; the generation goes with the configuration. */
  function Install(m: Manager, cfg: Option<string>, f: Option<string>): Manager {
    m.(pair := Pair(if cfg.Some? then cfg.value else m.pair.config,
                    if f.Some? then f else m.pair.targets,
                    if cfg.Some? then m.generation else m.pair.generation),
       configWaits := m.configWaits && cfg.None?, configUnread := m.configUnread && cfg.None?,
       targetsWaits := m.targetsWaits && f.None?, targetsUnread := m.targetsUnread && f.None?)
  }

  function OrElse(a: Option<string>, b: Option<string>): Option<string> {
    if a.Some? then a else b
  }

  /**
   * What was read put in force: both when they agree, or the one that agrees with the other in force; the rest waits.
   */
  function Settle(k: Checks, m: Manager, cfg: Option<string>, f: Option<string>): Manager {
    if Agree(k, OrElse(f, m.pair.targets), OrElse(cfg, Some(m.pair.config)).value) then Install(m, cfg, f)
    else SettleApart(k, m, cfg, f)
  }

  function SettleApart(k: Checks, m: Manager, cfg: Option<string>, f: Option<string>): Manager {
    var configGoes := cfg.Some? && Agree(k, m.pair.targets, cfg.value);
    var m1 := if configGoes then Install(m, cfg, None) else m;
    var targetsGo := f.Some? && Agree(k, f, m1.pair.config);
    var m2 := if targetsGo then Install(m1, None, f) else m1;
    Waiting(m2, cfg.Some? && !configGoes, f.Some? && !targetsGo)
  }

  /** The files left over wait for each other. */
  function Waiting(m: Manager, config: bool, targets: bool): Manager {
    m.(configWaits := m.configWaits || config, configUnread := m.configUnread && !config,
       targetsWaits := m.targetsWaits || targets, targetsUnread := m.targetsUnread && !targets)
  }

  function Apply(k: Checks, d: Disk, m: Manager, doConfig: bool, doTargets: bool): Manager {
    var m1 := if doConfig then ConfigRead(k, d, m) else m;
    var m2 := if doTargets then TargetsRead(k, d, m1) else m1;
    var cfg, f := if doConfig then LoadConfig(k, d) else None, if doTargets then LoadTargets(k, d) else None;
    if cfg.None? && f.None? then m2 else Settle(k, m2, cfg, f)
  }

  /** Whether a file read is refused, on its own or for the other. */
  function Refused(k: Checks, d: Disk, m: Manager, doConfig: bool, doTargets: bool): bool {
    var cfg, f := if doConfig then LoadConfig(k, d) else None, if doTargets then LoadTargets(k, d) else None;
    || (doConfig && cfg.None?) || (doTargets && f.None?)
    || ((cfg.Some? || f.Some?) && !Agree(k, OrElse(f, m.pair.targets), OrElse(cfg, Some(m.pair.config)).value))
  }

  // ---- the triggers ----

  predicate ConfigChanged(d: Disk, m: Manager) {
    d.config.There? && d.config.stamp != m.configSeen
  }

  predicate TargetsChanged(k: Checks, d: Disk, m: Manager) {
    k.hasTargets && d.targets.There? && d.targets.stamp != m.targetsSeen
  }

  /** What changed is read, and with it the other file when that waits. */
  predicate ConfigDue(k: Checks, d: Disk, m: Manager) {
    ConfigChanged(d, m) || (TargetsChanged(k, d, m) && m.configWaits)
  }

  predicate TargetsDue(k: Checks, d: Disk, m: Manager) {
    TargetsChanged(k, d, m) || (ConfigChanged(d, m) && m.targetsWaits)
  }

  /** A file that could not be read is read again at every tick, and with it the other when that waits for it. */
  predicate ConfigRetried(k: Checks, d: Disk, m: Manager) {
    !ConfigDue(k, d, m) && (m.configUnread || (m.configWaits && m.targetsUnread && !TargetsDue(k, d, m)))
  }

  predicate TargetsRetried(k: Checks, d: Disk, m: Manager) {
    !TargetsDue(k, d, m) && (m.targetsUnread || (m.targetsWaits && m.configUnread && !ConfigDue(k, d, m)))
  }

  /** A tick of the watch. */
  function Tick(k: Checks, d: Disk, m: Manager): Manager {
    var doConfig := ConfigDue(k, d, m) || ConfigRetried(k, d, m);
    var doTargets := TargetsDue(k, d, m) || TargetsRetried(k, d, m);
    if !doConfig && !doTargets then m else Apply(k, d, m, doConfig, doTargets)
  }

  function ReloadNow(k: Checks, d: Disk, m: Manager): Manager {
    Apply(k, d, m, true, k.hasTargets)
  }

  /** What replacing the files comes to: it fails, leaving some files, or is done, and can be undone or not. */
  datatype Undo = NoUndo | UndoFails(disk: Disk) | Undoes(disk: Disk)
  datatype Replacing = Fails(disk: Disk) | Replaces(disk: Disk, undo: Undo)

  function AfterReplacing(d: Disk, r: Replacing, refused: bool): Disk {
    if r.Fails? || !refused || r.undo.NoUndo? then r.disk else r.undo.disk
  }

  function ReloadReplacing(k: Checks, m: Manager, generation: string, r: Replacing): Manager {
    if r.Fails? then m else
      var m1 := m.(generation := generation);
      var m2 := ReloadNow(k, r.disk, m1);
      if !Refused(k, r.disk, m1, true, k.hasTargets) || r.undo.NoUndo? then m2
      else
        var m3 := m2.(generation := m.generation);
        if r.undo.UndoFails? then m3 else ReloadNow(k, r.undo.disk, m3)
  }

  function SetGeneration(m: Manager, generation: string): Manager {
    m.(generation := generation, pair := m.pair.(generation := generation))
  }

  // ---- what every reload keeps ----

  /**
   * What of the configuration was last read: in force, or not readable, or refused on its own, or it waits for the
   * targets.
   */
  ghost predicate ConfigKept(k: Checks, m: Manager) {
    var last := k.configAt(m.configSeen);
    && (m.configWaits ==> !m.configUnread && k.configLoads(last) && !Agree(k, m.pair.targets, last))
    && (!m.configWaits ==> m.configUnread || !k.configLoads(last) || m.pair.config == last)
  }

  ghost predicate TargetsKept(k: Checks, m: Manager) {
    var last := k.targetsAt(m.targetsSeen);
    && (m.targetsMissed ==>
          k.absentTargets && !m.targetsWaits && !m.targetsUnread && m.pair.targets == Some(k.noTargets))
    && (m.targetsWaits ==> !m.targetsUnread && k.targetsLoad(last) && !k.agrees(last, m.pair.config))
    && (!m.targetsWaits && !m.targetsMissed ==> m.targetsUnread || !k.targetsLoad(last) || m.pair.targets == Some(last))
  }

  /** Two files that both wait disagree. */
  ghost predicate BothWait(k: Checks, m: Manager) {
    m.configWaits && m.targetsWaits ==> !k.agrees(k.targetsAt(m.targetsSeen), k.configAt(m.configSeen))
  }

  ghost predicate Inv(k: Checks, m: Manager) {
    && PairAgrees(k, m.pair)
    && ConfigKept(k, m)
    && if k.hasTargets then TargetsKept(k, m) && BothWait(k, m)
       else m.pair.targets == None && !m.targetsWaits && !m.targetsUnread
  }

  /** The pair in force agrees after any reload of any files, whatever was read. */
  lemma ApplyAgrees(k: Checks, d: Disk, m: Manager, doConfig: bool, doTargets: bool)
    requires PairAgrees(k, m.pair)
    ensures PairAgrees(k, Apply(k, d, m, doConfig, doTargets).pair)
  {
    var m1 := if doConfig then ConfigRead(k, d, m) else m;
    var m2 := if doTargets then TargetsRead(k, d, m1) else m1;
    assert m2.pair == m1.pair == m.pair;
    SettleAgrees(k, m2, if doConfig then LoadConfig(k, d) else None, if doTargets then LoadTargets(k, d) else None);
  }

  lemma SettleAgrees(k: Checks, m: Manager, cfg: Option<string>, f: Option<string>)
    requires PairAgrees(k, m.pair)
    ensures PairAgrees(k, Settle(k, m, cfg, f).pair)
  {
    ApartAgrees(k, m, cfg, f);
  }

  lemma ApartAgrees(k: Checks, m: Manager, cfg: Option<string>, f: Option<string>)
    requires PairAgrees(k, m.pair)
    ensures PairAgrees(k, SettleApart(k, m, cfg, f).pair)
  {
  }

  /** A file that waits is read whenever the other one is, and only files there are. */
  ghost predicate ReadsWaiting(k: Checks, m: Manager, doConfig: bool, doTargets: bool) {
    && (doConfig && m.targetsWaits ==> doTargets) && (doTargets && m.configWaits ==> doConfig)
    && (doTargets ==> k.hasTargets)
  }

  lemma ApplyKeeps(k: Checks, d: Disk, m: Manager, doConfig: bool, doTargets: bool)
    requires GoodChecks(k) && Inv(k, m) && ReadsWaiting(k, m, doConfig, doTargets)
    ensures Inv(k, Apply(k, d, m, doConfig, doTargets))
  {
    var m1 := if doConfig then ConfigRead(k, d, m) else m;
    var m2 := if doTargets then TargetsRead(k, d, m1) else m1;
    var cfg, f := if doConfig then LoadConfig(k, d) else None, if doTargets then LoadTargets(k, d) else None;
    assert Refusals(k, m2, cfg, f);
    if cfg.Some? || f.Some? {
      SettleKeeps(k, m2, cfg, f);
    }
  }

  /**
   * The state between reading and settling: what was not read is as it was kept, what was and loads is what is to
   * settle.
   */
  ghost predicate Refusals(k: Checks, m: Manager, cfg: Option<string>, f: Option<string>) {
    && PairAgrees(k, m.pair)
    && (if cfg.None? then ConfigKept(k, m) && (f.Some? ==> !m.configWaits) else
          k.configLoads(cfg.value) && cfg.value == k.configAt(m.configSeen))
    && (if !k.hasTargets then f.None? && m.pair.targets == None && !m.targetsWaits && !m.targetsUnread
        else if f.None? then TargetsKept(k, m) && BothWait(k, m) && (cfg.Some? ==> !m.targetsWaits)
        else if m.targetsMissed then k.absentTargets && f.value == k.noTargets
        else k.targetsLoad(f.value) && f.value == k.targetsAt(m.targetsSeen))
  }

  lemma SettleKeeps(k: Checks, m: Manager, cfg: Option<string>, f: Option<string>)
    requires GoodChecks(k) && Refusals(k, m, cfg, f) && (cfg.Some? || f.Some?)
    ensures Inv(k, Settle(k, m, cfg, f))
  {
  }

  // ---- runs ----

  /** What happens: the files change, in any way; the watch ticks; a reload is asked for; the files are replaced. */
  datatype Event = Edit(disk: Disk) | Ticks | Reloads | Replaced(generation: string, replacing: Replacing)

  datatype World = World(disk: Disk, manager: Manager)

  function Step(k: Checks, w: World, e: Event): World {
    match e
    case Edit(d) => w.(disk := d)
    case Ticks => w.(manager := Tick(k, w.disk, w.manager))
    case Reloads => w.(manager := ReloadNow(k, w.disk, w.manager))
    case Replaced(g, r) =>
      World(AfterReplacing(w.disk, r,
              r.Replaces? && Refused(k, r.disk, w.manager.(generation := g), true, k.hasTargets)),
            ReloadReplacing(k, w.manager, g, r))
  }

  lemma TickKeeps(k: Checks, d: Disk, m: Manager)
    requires GoodChecks(k) && Inv(k, m)
    ensures Inv(k, Tick(k, d, m))
  {
    var doConfig := ConfigDue(k, d, m) || ConfigRetried(k, d, m);
    var doTargets := TargetsDue(k, d, m) || TargetsRetried(k, d, m);
    if doConfig || doTargets {
      ApplyKeeps(k, d, m, doConfig, doTargets);
    }
  }

  lemma ReloadKeeps(k: Checks, d: Disk, m: Manager)
    requires GoodChecks(k) && Inv(k, m)
    ensures Inv(k, ReloadNow(k, d, m))
  {
    ApplyKeeps(k, d, m, true, k.hasTargets);
  }

  lemma ReplacingKeeps(k: Checks, m: Manager, generation: string, r: Replacing)
    requires GoodChecks(k) && Inv(k, m)
    ensures Inv(k, ReloadReplacing(k, m, generation, r))
  {
    if r.Replaces? {
      var m1 := m.(generation := generation);
      ReloadKeeps(k, r.disk, m1);
      var m3 := ReloadNow(k, r.disk, m1).(generation := m.generation);
      if r.undo.Undoes? {
        ReloadKeeps(k, r.undo.disk, m3);
      }
    }
  }

  lemma StepKeeps(k: Checks, w: World, e: Event)
    requires GoodChecks(k) && Inv(k, w.manager)
    ensures Inv(k, Step(k, w, e).manager)
  {
    match e
    case Edit(_) =>
    case Ticks => TickKeeps(k, w.disk, w.manager);
    case Reloads => ReloadKeeps(k, w.disk, w.manager);
    case Replaced(g, r) => ReplacingKeeps(k, w.manager, g, r);
  }

  /** Started with the files as they are, which load and agree. */
  ghost predicate Starts(k: Checks, w: World) {
    var m := w.manager;
    && w.disk.config.There? && w.disk.config.stamp == m.configSeen && LoadConfig(k, w.disk) == Some(m.pair.config)
    && m.pair.targets == (if k.hasTargets then LoadTargets(k, w.disk) else None)
    && (k.hasTargets ==> m.pair.targets.Some?)
    && (w.disk.targets.There? ==> w.disk.targets.stamp == m.targetsSeen)
    && PairAgrees(k, m.pair) && m.pair.generation == m.generation
    && !m.configWaits && !m.targetsWaits && !m.configUnread && !m.targetsUnread
    && m.targetsMissed == (k.hasTargets && TakenForNone(k, w.disk))
  }

  ghost predicate IsRun(k: Checks, ws: seq<World>, es: seq<Event>) {
    && |ws| == |es| + 1 && Starts(k, ws[0])
    && forall i | 0 <= i < |es| :: ws[i + 1] == Step(k, ws[i], es[i])
  }

  /** Over any run, the pair in force agrees, and what is not in force was refused for what it was. */
  lemma {:induction false} RunKeeps(k: Checks, ws: seq<World>, es: seq<Event>, i: nat)
    requires GoodChecks(k) && IsRun(k, ws, es) && i < |ws|
    ensures Inv(k, ws[i].manager)
    decreases i
  {
    if i > 0 {
      RunKeeps(k, ws, es, i - 1);
      StepKeeps(k, ws[i - 1], es[i - 1]);
    }
  }

  // ---- files that are still ----

  /** Both files load, and agree. */
  ghost predicate Sound(k: Checks, d: Disk) {
    && LoadConfig(k, d).Some?
    && (k.hasTargets ==> LoadTargets(k, d).Some? && Agree(k, LoadTargets(k, d), LoadConfig(k, d).value))
  }

  ghost predicate InForce(k: Checks, d: Disk, p: Pair) {
    && LoadConfig(k, d) == Some(p.config)
    && (if k.hasTargets then p.targets.Some? && p.targets == LoadTargets(k, d) else p.targets == None)
  }

  /**
   * Where a target file may be absent, its going and coming can be overlooked: it is gone, and nothing else has it
   * read; or it was gone when it was last read and has come back with the stamp it had.
   */
  ghost predicate Overlooked(k: Checks, d: Disk, m: Manager) {
    && k.hasTargets && k.absentTargets && m.pair.targets != LoadTargets(k, d)
    && if d.targets.Absent? then !m.targetsUnread && !(m.targetsWaits && (ConfigChanged(d, m) || m.configUnread))
       else m.targetsMissed && d.targets.There? && d.targets.stamp == m.targetsSeen
  }

  /**
   * Once the files have been still for a tick, a pair that loads and agrees is the pair in force, whatever was written
   * before, in whatever order and over whatever ticks, and whatever could not be read for a while; where a target file
   * may be absent, exactly when neither its going nor its coming back was overlooked.
   */
  lemma StillForATick(k: Checks, ws: seq<World>, es: seq<Event>, i: nat)
    requires GoodChecks(k) && IsRun(k, ws, es) && i < |es| && es[i] == Ticks && Sound(k, ws[i].disk)
    ensures !k.absentTargets ==> InForce(k, ws[i].disk, ws[i + 1].manager.pair)
    ensures InForce(k, ws[i].disk, ws[i + 1].manager.pair) <==> !Overlooked(k, ws[i].disk, ws[i].manager)
  {
    RunKeeps(k, ws, es, i);
    TickSettles(k, ws[i].disk, ws[i].manager);
  }

  lemma TickSettles(k: Checks, d: Disk, m: Manager)
    requires GoodChecks(k) && Inv(k, m) && Sound(k, d)
    ensures InForce(k, d, Tick(k, d, m).pair) <==> !Overlooked(k, d, m)
  {
  }

  /** A configuration and a target file, each of one version, which agree; a target file may be absent. */
  function OneVersion(): Checks {
    Checks(n => "c", n => "t", c => true, t => true, (t, c) => true, "", true, true)
  }

  ghost predicate OverlookedFor(k: Checks, w: World) {
    Sound(k, w.disk) && !InForce(k, w.disk, w.manager.pair) && Tick(k, w.disk, w.manager) == w.manager
  }

  /** A target file removed stays in force at every tick, and one that is back as it was stays out. */
  lemma OverlookedForGood() returns (ws: seq<World>, es: seq<Event>)
    ensures GoodChecks(OneVersion()) && IsRun(OneVersion(), ws, es) && |es| == 5
    ensures es[1] == Ticks && OverlookedFor(OneVersion(), ws[2])
    ensures es[4] == Ticks && OverlookedFor(OneVersion(), ws[5])
  {
    var k := OneVersion();
    var there := Disk(There(1, true), There(1, true));
    var gone := Disk(There(1, true), Absent);
    var m0 := Manager(Pair("c", Some("t"), ""), "", false, false, false, false, 1, 1, false);
    var m3 := m0.(pair := Pair("c", Some(""), ""), targetsMissed := true);
    assert Tick(k, gone, m0) == m0;
    assert ReloadNow(k, gone, m0) == m3;
    assert Tick(k, there, m3) == m3;
    ws := [World(there, m0), World(gone, m0), World(gone, m0), World(gone, m3), World(there, m3), World(there, m3)];
    es := [Edit(gone), Ticks, Reloads, Edit(there), Ticks];
  }

  /** After a tick over files that can be read, there is nothing new to see and nothing to try again. */
  lemma TickSees(k: Checks, d: Disk, m: Manager)
    requires Inv(k, m) && Sound(k, d)
    ensures var m' := Tick(k, d, m);
            !ConfigChanged(d, m') && !TargetsChanged(k, d, m') && !m'.configUnread && !m'.targetsUnread
  {
  }

  lemma NothingDue(k: Checks, d: Disk, m: Manager)
    requires Inv(k, m) && InForce(k, d, m.pair) && !ConfigChanged(d, m) && !TargetsChanged(k, d, m)
    requires !m.configUnread && !m.targetsUnread
    ensures Tick(k, d, m) == m
  {
  }

  /** A further tick over the same files, once they are in force, changes nothing. */
  lemma SettledIsQuiet(k: Checks, d: Disk, m: Manager)
    requires GoodChecks(k) && Inv(k, m) && Sound(k, d) && InForce(k, d, Tick(k, d, m).pair)
    ensures Tick(k, d, Tick(k, d, m)) == Tick(k, d, m)
  {
    TickKeeps(k, d, m);
    TickSees(k, d, m);
    NothingDue(k, d, Tick(k, d, m));
  }

  /** A reload of both files is refused exactly when they are not what ends up in force. */
  lemma RefusedMeans(k: Checks, d: Disk, m: Manager)
    requires PairAgrees(k, m.pair) && (!k.hasTargets ==> m.pair.targets == None)
    ensures var m' := ReloadNow(k, d, m);
            && (Refused(k, d, m, true, k.hasTargets) <==> !InForce(k, d, m'.pair))
            && (InForce(k, d, m'.pair) ==> m'.pair.generation == m.generation)
            && m'.generation == m.generation && (!k.hasTargets ==> m'.pair.targets == None) && PairAgrees(k, m'.pair)
  {
    var m', cfg, f := ReloadParts(k, d, m);
    RefusedMeansOf(k, d, m, m'.pair, cfg, f);
  }

  /** What a reload of both files read, and what it left. */
  lemma ReloadParts(k: Checks, d: Disk, m: Manager) returns (m': Manager, cfg: Option<string>, f: Option<string>)
    requires PairAgrees(k, m.pair)
    ensures m' == ReloadNow(k, d, m) && m'.generation == m.generation && PairAgrees(k, m'.pair)
    ensures cfg == LoadConfig(k, d) && f == if k.hasTargets then LoadTargets(k, d) else None
    ensures f.None? ==> m'.pair.targets == m.pair.targets
    ensures cfg.None? && f.None? ==> m'.pair == m.pair
    ensures Agree(k, OrElse(f, m.pair.targets), OrElse(cfg, Some(m.pair.config)).value) ==>
      m'.pair == Pair(OrElse(cfg, Some(m.pair.config)).value, OrElse(f, m.pair.targets),
                      if cfg.Some? then m.generation else m.pair.generation)
  {
    ApplyAgrees(k, d, m, true, k.hasTargets);
    var m2;
    m2, m', cfg, f := BothRead(k, d, m);
    SettleOutcome(k, m2, cfg, f);
  }

  lemma BothRead(k: Checks, d: Disk, m: Manager)
    returns (m2: Manager, m': Manager, cfg: Option<string>, f: Option<string>)
    ensures m' == ReloadNow(k, d, m) && m2.pair == m.pair && m2.generation == m.generation
    ensures cfg == LoadConfig(k, d) && f == if k.hasTargets then LoadTargets(k, d) else None
    ensures m' == if cfg.None? && f.None? then m2 else Settle(k, m2, cfg, f)
  {
    var m1 := ConfigRead(k, d, m);
    m2 := if k.hasTargets then TargetsRead(k, d, m1) else m1;
    cfg, f := LoadConfig(k, d), if k.hasTargets then LoadTargets(k, d) else None;
    m' := if cfg.None? && f.None? then m2 else Settle(k, m2, cfg, f);
  }

  lemma RefusedMeansOf(k: Checks, d: Disk, m: Manager, p: Pair, cfg: Option<string>, f: Option<string>)
    requires PairAgrees(k, p) && (!k.hasTargets ==> m.pair.targets == None)
    requires cfg == LoadConfig(k, d) && f == if k.hasTargets then LoadTargets(k, d) else None
    requires f.None? ==> p.targets == m.pair.targets
    requires Agree(k, OrElse(f, m.pair.targets), OrElse(cfg, Some(m.pair.config)).value) ==>
      p == Pair(OrElse(cfg, Some(m.pair.config)).value, OrElse(f, m.pair.targets),
                if cfg.Some? then m.generation else m.pair.generation)
    ensures Refused(k, d, m, true, k.hasTargets) <==> !InForce(k, d, p)
    ensures (InForce(k, d, p) ==> p.generation == m.generation) && (!k.hasTargets ==> p.targets == None)
  {
  }

  lemma SettleOutcome(k: Checks, m: Manager, cfg: Option<string>, f: Option<string>)
    ensures var m' := Settle(k, m, cfg, f);
            && m'.generation == m.generation && (f.None? ==> m'.pair.targets == m.pair.targets)
            && (Agree(k, OrElse(f, m.pair.targets), OrElse(cfg, Some(m.pair.config)).value) ==>
                  m'.pair == Pair(OrElse(cfg, Some(m.pair.config)).value, OrElse(f, m.pair.targets),
                                  if cfg.Some? then m.generation else m.pair.generation))
  {
    ApartOutcome(k, m, cfg, f);
  }

  lemma ApartOutcome(k: Checks, m: Manager, cfg: Option<string>, f: Option<string>)
    ensures var m' := SettleApart(k, m, cfg, f);
            m'.generation == m.generation && (f.None? ==> m'.pair.targets == m.pair.targets)
  {
    var m1 := if cfg.Some? && Agree(k, m.pair.targets, cfg.value) then Install(m, cfg, None) else m;
    assert m1.generation == m.generation && m1.pair.targets == m.pair.targets;
  }

  /**
   * A configuration and a target file both read and loaded: both go in force when they agree with each other; else the
   * configuration alone when it agrees with the targets in force; else the targets alone when they agree with the
   * configuration in force; else neither. What does not go in force waits.
   */
  lemma BothSettle(k: Checks, m: Manager, c: string, t: string)
    ensures var m' := Settle(k, m, Some(c), Some(t));
            var configGoes := k.agrees(t, c) || m.pair.targets.None? || k.agrees(m.pair.targets.value, c);
            var targetsGo := k.agrees(t, c) || (!configGoes && k.agrees(t, m.pair.config));
            && m'.pair.config == (if configGoes then c else m.pair.config)
            && m'.pair.targets == (if targetsGo then Some(t) else m.pair.targets)
            && m'.pair.generation == (if configGoes then m.generation else m.pair.generation)
            && m'.configWaits == !configGoes && m'.targetsWaits == !targetsGo
            && !m'.configUnread && !m'.targetsUnread
            && m'.generation == m.generation && m'.configSeen == m.configSeen && m'.targetsSeen == m.targetsSeen
  {
  }

  /** One of them alone goes in force exactly when it agrees with the other in force, and waits otherwise. */
  lemma OneSettles(k: Checks, m: Manager, c: string, t: string)
    ensures var m', goes := Settle(k, m, Some(c), None), m.pair.targets.None? || k.agrees(m.pair.targets.value, c);
            && m'.pair == (if goes then Pair(c, m.pair.targets, m.generation) else m.pair)
            && m'.configWaits == !goes && !m'.configUnread
            && m'.targetsWaits == m.targetsWaits && m'.targetsUnread == m.targetsUnread
    ensures var m', goes := Settle(k, m, None, Some(t)), k.agrees(t, m.pair.config);
            && m'.pair == (if goes then m.pair.(targets := Some(t)) else m.pair)
            && m'.targetsWaits == !goes && !m'.targetsUnread
            && m'.configWaits == m.configWaits && m'.configUnread == m.configUnread
  {
  }

  /** Files that are as they were seen, and that could be read then, are not read again. */
  lemma SeenIsNotRead(k: Checks, d: Disk, m: Manager)
    requires d.config.There? ==> d.config.stamp == m.configSeen
    requires k.hasTargets && d.targets.There? ==> d.targets.stamp == m.targetsSeen
    requires !m.configUnread && !m.targetsUnread
    ensures Tick(k, d, m) == m
  {
  }

  // ---- replacing the files ----

  /**
   * A replacement is a transaction: accepted, the new files are in force with the new generation; refused and undone,
   * the pair in force is the one before, whatever of the new files had gone in force alone, with the generation of the
   * files before, which is the one it had exactly when it was read from them.
   */
  lemma ReplacingIsATransaction(k: Checks, m: Manager, generation: string, r: Replacing)
    requires PairAgrees(k, m.pair) && (!k.hasTargets ==> m.pair.targets == None)
    requires r.Replaces?
    ensures var m' := ReloadReplacing(k, m, generation, r);
            var refused := Refused(k, r.disk, m.(generation := generation), true, k.hasTargets);
            && (!refused ==> InForce(k, r.disk, m'.pair) && m'.pair.generation == generation == m'.generation)
            && (refused && r.undo.Undoes? && InForce(k, r.undo.disk, m.pair) ==>
                  m'.pair == m.pair.(generation := m.generation) && m'.generation == m.generation)
            && (refused && r.undo.UndoFails? ==> m'.generation == m.generation)
            && (refused && r.undo.NoUndo? ==> m'.generation == generation)
  {
    var m1 := m.(generation := generation);
    var m2 := ReloadNow(k, r.disk, m1);
    RefusedMeans(k, r.disk, m1);
    if r.undo.Undoes? && InForce(k, r.undo.disk, m.pair) {
      UndoneIsBefore(k, r.undo.disk, m, m2);
    }
  }

  /** Undone, whatever went in force in between. */
  lemma UndoneIsBefore(k: Checks, d: Disk, m: Manager, m2: Manager)
    requires PairAgrees(k, m.pair) && InForce(k, d, m.pair) && (!k.hasTargets ==> m2.pair.targets == None)
    requires PairAgrees(k, m2.pair)
    ensures var m' := ReloadNow(k, d, m2.(generation := m.generation));
            m'.pair == m.pair.(generation := m.generation) && m'.generation == m.generation
  {
    var m3 := m2.(generation := m.generation);
    RefusedMeans(k, d, m3);
    ReadAgain(k, d, m3, m.pair);
  }

  /** Files that are what p was read from, and so agree, put p's files in force again. */
  lemma ReadAgain(k: Checks, d: Disk, m: Manager, p: Pair)
    requires InForce(k, d, p) && PairAgrees(k, p) && (!k.hasTargets ==> m.pair.targets == None)
    ensures ReloadNow(k, d, m).pair == p.(generation := m.generation)
  {
    NotRefused(k, d, m, p);
  }

  lemma NotRefused(k: Checks, d: Disk, m: Manager, p: Pair)
    requires InForce(k, d, p) && PairAgrees(k, p) && (!k.hasTargets ==> m.pair.targets == None)
    ensures !Refused(k, d, m, true, k.hasTargets)
  {
  }

  /** Whatever becomes of the replacement, what is in force agrees, at every moment of it. */
  lemma ReplacingAgrees(k: Checks, m: Manager, generation: string, r: Replacing)
    requires PairAgrees(k, m.pair)
    ensures PairAgrees(k, ReloadReplacing(k, m, generation, r).pair)
    ensures r.Replaces? ==> PairAgrees(k, ReloadNow(k, r.disk, m.(generation := generation)).pair)
  {
    if r.Replaces? {
      var m1 := m.(generation := generation);
      ApplyAgrees(k, r.disk, m1, true, k.hasTargets);
      if r.undo.Undoes? {
        ApplyAgrees(k, r.undo.disk, ReloadNow(k, r.disk, m1).(generation := m.generation), true, k.hasTargets);
      }
    }
  }

  // ---- generations ----

  /** The pair in force names the generation of the files. */
  ghost predicate Named(m: Manager) {
    m.pair.generation == m.generation
  }

  /** The event is a replacement, of which the reload is refused. */
  predicate RefusedAt(k: Checks, w: World, e: Event) {
    && e.Replaced? && e.replacing.Replaces?
    && Refused(k, e.replacing.disk, w.manager.(generation := e.generation), true, k.hasTargets)
  }

  /** A replacement that is refused is undone, to the files that are in force. */
  ghost predicate UndoneWell(k: Checks, w: World, e: Event) {
    RefusedAt(k, w, e) ==> e.replacing.undo.Undoes? && InForce(k, e.replacing.undo.disk, w.manager.pair)
  }

  lemma ApplyNames(k: Checks, d: Disk, m: Manager, doConfig: bool, doTargets: bool)
    requires Named(m)
    ensures Named(Apply(k, d, m, doConfig, doTargets))
  {
    var m1 := if doConfig then ConfigRead(k, d, m) else m;
    var m2 := if doTargets then TargetsRead(k, d, m1) else m1;
    assert Named(m2);
    SettleNames(k, m2, if doConfig then LoadConfig(k, d) else None, if doTargets then LoadTargets(k, d) else None);
  }

  lemma SettleNames(k: Checks, m: Manager, cfg: Option<string>, f: Option<string>)
    requires Named(m)
    ensures Named(Settle(k, m, cfg, f))
  {
  }

  lemma StepNames(k: Checks, w: World, e: Event)
    requires Inv(k, w.manager) && Named(w.manager) && UndoneWell(k, w, e)
    ensures Named(Step(k, w, e).manager)
    ensures e.Replaced? && e.replacing.Replaces?
              && Refused(k, e.replacing.disk, w.manager.(generation := e.generation), true, k.hasTargets) ==>
            Step(k, w, e).manager.pair == w.manager.pair
  {
    match e
    case Edit(_) =>
    case Ticks =>
      ApplyNames(k, w.disk, w.manager, ConfigDue(k, w.disk, w.manager) || ConfigRetried(k, w.disk, w.manager),
                 TargetsDue(k, w.disk, w.manager) || TargetsRetried(k, w.disk, w.manager));
    case Reloads => ApplyNames(k, w.disk, w.manager, true, k.hasTargets);
    case Replaced(g, r) =>
      if r.Replaces? {
        ReplacingIsATransaction(k, w.manager, g, r);
      }
  }

  /**
   * Over a run in which no refused replacement is left in place, the pair in force always names the generation of the
   * files it was read from, and a refused replacement leaves the whole pair, its generation too, as it was.
   */
  lemma {:induction false} GenerationIsOfTheFiles(k: Checks, ws: seq<World>, es: seq<Event>, i: nat)
    requires GoodChecks(k) && IsRun(k, ws, es) && i < |ws|
    requires forall j | 0 <= j < |es| :: UndoneWell(k, ws[j], es[j])
    ensures Named(ws[i].manager)
    ensures i < |es| && RefusedAt(k, ws[i], es[i]) ==> ws[i + 1].manager.pair == ws[i].manager.pair
    decreases i
  {
    if i > 0 {
      GenerationIsOfTheFiles(k, ws, es, i - 1);
      RunKeeps(k, ws, es, i - 1);
      StepNames(k, ws[i - 1], es[i - 1]);
    }
    RunKeeps(k, ws, es, i);
    if i < |es| {
      StepNames(k, ws[i], es[i]);
    }
  }

  // ---- the manager ----

  /** The verdict of one check, kept for the rest of the reload. */
  datatype Verdict = Verdict(targets: Option<string>, config: string, agrees: bool)

  ghost predicate ValidVerdicts(k: Checks, vs: seq<Verdict>) {
    forall v | v in vs :: v.agrees == Agree(k, v.targets, v.config)
  }

  method Ask(k: Checks, vs: seq<Verdict>, t: Option<string>, c: string) returns (agree: bool, vs': seq<Verdict>)
    requires ValidVerdicts(k, vs)
    ensures agree == Agree(k, t, c) && ValidVerdicts(k, vs')
  {
    for i := 0 to |vs| {
      if vs[i].targets == t && vs[i].config == c {
        return vs[i].agrees, vs;
      }
    }
    agree := t.None? || k.agrees(t.value, c);
    vs' := vs + [Verdict(t, c, agree)];
  }

  class Reloader {
    const k: Checks
    var pair: Pair
    var generation: string
    var configWaits: bool
    var targetsWaits: bool
    var configUnread: bool
    var targetsUnread: bool
    var configSeen: nat
    var targetsSeen: nat
    ghost var targetsMissed: bool

    ghost function View(): Manager
      reads this
    {
      Manager(pair, generation, configWaits, targetsWaits, configUnread, targetsUnread, configSeen, targetsSeen,
          targetsMissed)
    }

    /** Made of the files as they were read at the start. */
    constructor (checks: Checks, d: Disk, config: string, targets: Option<string>)
      ensures k == checks
      ensures View() == Manager(Pair(config, targets, ""), "", false, false, false, false,
                                Seen(d.config, 0), Seen(d.targets, 0), checks.hasTargets && TakenForNone(checks, d))
    {
      k, pair, generation, configWaits, targetsWaits := checks, Pair(config, targets, ""), "", false, false;
      configUnread, targetsUnread := false, false;
      configSeen, targetsSeen := Seen(d.config, 0), Seen(d.targets, 0);
      targetsMissed := checks.hasTargets && TakenForNone(checks, d);
    }

    method ReadConfig(d: Disk) returns (cfg: Option<string>)
      modifies `configSeen, `configWaits, `configUnread
      ensures View() == ConfigRead(k, d, old(View())) && cfg == LoadConfig(k, d)
    {
      cfg := None;
      if d.config.There? {
        configSeen := d.config.stamp;
      }
      if !Readable(d.config) {
        configWaits, configUnread := false, true;
      } else if k.configLoads(k.configAt(d.config.stamp)) {
        cfg := Some(k.configAt(d.config.stamp));
      } else {
        configWaits, configUnread := false, false;
      }
    }

    method ReadTargets(d: Disk) returns (f: Option<string>)
      modifies `targetsSeen, `targetsMissed, `targetsWaits, `targetsUnread
      ensures View() == TargetsRead(k, d, old(View())) && f == LoadTargets(k, d)
    {
      targetsMissed := TakenForNone(k, d);
      f := None;
      if d.targets.There? {
        targetsSeen := d.targets.stamp;
      }
      if k.absentTargets && d.targets.Absent? {
        f := Some(k.noTargets);
      } else if !Readable(d.targets) {
        targetsWaits, targetsUnread := false, true;
      } else if k.targetsLoad(k.targetsAt(d.targets.stamp)) {
        f := Some(k.targetsAt(d.targets.stamp));
      } else {
        targetsWaits, targetsUnread := false, false;
      }
    }

    method PutInForce(cfg: Option<string>, f: Option<string>)
      modifies `pair, `configWaits, `targetsWaits, `configUnread, `targetsUnread
      ensures View() == Install(old(View()), cfg, f)
    {
      var next := pair;
      if cfg.Some? {
        next := next.(config := cfg.value, generation := generation);
        configWaits, configUnread := false, false;
      }
      if f.Some? {
        next := next.(targets := f);
        targetsWaits, targetsUnread := false, false;
      }
      pair := next;
    }

    method SettleRead(cfg0: Option<string>, f0: Option<string>) returns (refused: bool)
      modifies `pair, `configWaits, `targetsWaits, `configUnread, `targetsUnread
      ensures View() == Settle(k, old(View()), cfg0, f0)
      ensures refused == !Agree(k, OrElse(f0, old(pair).targets), OrElse(cfg0, Some(old(pair).config)).value)
    {
      var cfg, f := cfg0, f0;
      var agree, vs := Ask(k, [], OrElse(f, pair.targets), if cfg.Some? then cfg.value else pair.config);
      if agree {
        PutInForce(cfg, f);
        return false;
      }
      if cfg.Some? {
        agree, vs := Ask(k, vs, pair.targets, cfg.value);
        if agree {
          PutInForce(cfg, None);
          cfg := None;
        }
      }
      if f.Some? {
        agree, vs := Ask(k, vs, f, pair.config);
        if agree {
          PutInForce(None, f);
          f := None;
        }
      }
      if cfg.Some? {
        configWaits, configUnread := true, false;
      }
      if f.Some? {
        targetsWaits, targetsUnread := true, false;
      }
      refused := true;
    }

    method ApplyFiles(d: Disk, doConfig: bool, doTargets: bool) returns (refused: bool)
      modifies `pair, `configWaits, `targetsWaits, `configUnread
      modifies `targetsUnread, `configSeen, `targetsSeen, `targetsMissed
      ensures View() == Apply(k, d, old(View()), doConfig, doTargets)
      ensures refused == Refused(k, d, old(View()), doConfig, doTargets)
    {
      refused := false;
      var cfg, f: Option<string> := None, None;
      if doConfig {
        cfg := ReadConfig(d);
        refused := cfg.None?;
      }
      if doTargets {
        f := ReadTargets(d);
        refused := refused || f.None?;
      }
      if cfg.Some? || f.Some? {
        var rejected := SettleRead(cfg, f);
        refused := refused || rejected;
      }
    }

    /** One tick of the watch. */
    method ReloadChanged(d: Disk)
      modifies `pair, `configWaits, `targetsWaits, `configUnread
      modifies `targetsUnread, `configSeen, `targetsSeen, `targetsMissed
      ensures View() == Tick(k, d, old(View()))
    {
      var configChanged := d.config.There? && d.config.stamp != configSeen;
      var targetsChanged := k.hasTargets && d.targets.There? && d.targets.stamp != targetsSeen;
      var doConfig := configChanged || (targetsChanged && configWaits);
      var doTargets := targetsChanged || (configChanged && targetsWaits);
      var configQuiet := !doConfig && (configUnread || (configWaits && targetsUnread && !doTargets));
      var targetsQuiet := !doTargets && (targetsUnread || (targetsWaits && configUnread && !doConfig));
      doConfig, doTargets := doConfig || configQuiet, doTargets || targetsQuiet;
      if doConfig || doTargets {
        var _ := ApplyFiles(d, doConfig, doTargets);
      }
    }

    method ReloadFiles(d: Disk) returns (refused: bool)
      modifies `pair, `configWaits, `targetsWaits, `configUnread
      modifies `targetsUnread, `configSeen, `targetsSeen, `targetsMissed
      ensures View() == ReloadNow(k, d, old(View())) && refused == Refused(k, d, old(View()), true, k.hasTargets)
    {
      refused := ApplyFiles(d, true, k.hasTargets);
    }

    method Replace(next: string, r: Replacing) returns (refused: bool)
      modifies this
      ensures View() == ReloadReplacing(k, old(View()), next, r)
      ensures refused <==> r.Fails? || Refused(k, r.disk, old(View()).(generation := next), true, k.hasTargets)
    {
      if r.Fails? {
        return true;
      }
      var previous := generation;
      generation := next;
      refused := ReloadFiles(r.disk);
      if !refused || r.undo.NoUndo? {
        return;
      }
      generation := previous;
      if r.undo.UndoFails? {
        return;
      }
      var _ := ReloadFiles(r.undo.disk);
    }

    method SetGenerationTo(next: string)
      modifies `generation, `pair
      ensures View() == SetGeneration(old(View()), next)
    {
      generation := next;
      pair := pair.(generation := next);
    }
  }
}
