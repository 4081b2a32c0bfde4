/**
 * A replica takes a bundle (internal/allocclient/cache.go: apply): the cache directory swapped and the configuration
 * manager reloaded under one lock. What the manager has in force and what the links of the directory show are of one
 * bundle.
 */
module Replica {
  import opened Common
  import C = CacheDirectory
  import R = Reload

  const CONFIG_PATH := C.Path(C.CONFIG, "")
  const TARGETS_PATH := C.Path(C.TARGETS, "")

  /**
   * When the manager reads its files: a repair done, a bundle swapped in, the one before put back, a tick of the watch.
   */
  datatype Moment = Mended | Swapped | Restored | Watched

  // What the manager finds of its two files in the cache directory at such a moment.
  type Look = (C.Directory, Moment) -> R.Disk

  ghost predicate Finds(at: nat -> string, f: R.OnDisk, content: Option<string>) {
    (f.There? ==> content == Some(at(f.stamp))) && (f.Absent? ==> content == None)
  }

  /** A file that is there is what the links show, and one that is not is not shown; either may be out of reach. */
  ghost predicate Views(k: R.Checks, disk: R.Disk, d: C.Directory) {
    && Finds(k.configAt, disk.config, C.Read(d, CONFIG_PATH))
    && Finds(k.targetsAt, disk.targets, C.Read(d, TARGETS_PATH))
  }

  ghost predicate GoodLook(k: R.Checks, look: Look) {
    forall d, when :: Views(k, look(d, when), d)
  }

  /** The files can be read, or the target file is rightly taken for one without targets. */
  predicate IsRead(k: R.Checks, disk: R.Disk) {
    R.Readable(disk.config) && (k.hasTargets ==> R.Readable(disk.targets) || R.TakenForNone(k, disk))
  }

  /** At that moment files that are there can be read. */
  ghost predicate ReadsAt(k: R.Checks, look: Look, when: Moment) {
    forall d ::
      && (C.Read(d, CONFIG_PATH).Some? ==> R.Readable(look(d, when).config))
      && (C.Read(d, TARGETS_PATH).Some? ==> R.Readable(look(d, when).targets))
      && (C.Read(d, TARGETS_PATH).None? ==> look(d, when).targets.Absent?)
  }

  /** The targets a directory has for the manager, and whether they load. */
  ghost predicate HasTargets(k: R.Checks, d: C.Directory, targets: Option<string>) {
    var content := C.Read(d, TARGETS_PATH);
    if !k.hasTargets then targets == None
    else if content.Some? then targets == content && k.targetsLoad(content.value)
    else k.absentTargets && targets == Some(k.noTargets)
  }

  /** The pair in force is what the links show, and both are of the one generation. */
  ghost predicate OneBundle(check: C.Check, k: R.Checks, m: R.Manager, d: C.Directory, g: string) {
    && C.Whole(check, d) && C.Linked(d) == Some(g) && m.pair.generation == g == m.generation
    && C.Read(d, CONFIG_PATH) == Some(m.pair.config) && k.configLoads(m.pair.config)
    && HasTargets(k, d, m.pair.targets) && R.PairAgrees(k, m.pair)
  }

  /** Two directories that show the same of the manager's files. */
  ghost predicate ShowAlike(d: C.Directory, e: C.Directory) {
    C.Read(d, CONFIG_PATH) == C.Read(e, CONFIG_PATH) && C.Read(d, TARGETS_PATH) == C.Read(e, TARGETS_PATH)
  }

  lemma WholeShowAlike(check: C.Check, d: C.Directory, e: C.Directory)
    requires C.Whole(check, d) && C.Whole(check, e) && C.Linked(d) == C.Linked(e)
    requires C.IsNamed(d) ==>
      C.IsDir(e, C.Linked(d).value) && e[C.Gen(C.Linked(d).value)] == d[C.Gen(C.Linked(d).value)]
    ensures ShowAlike(d, e)
  {
    C.WholeShows(check, d);
    C.WholeShows(check, e);
  }

  /** What was put in force whole, from a directory of the generation, is one bundle with it. */
  lemma InForceIsOne(check: C.Check, k: R.Checks, m: R.Manager, d: C.Directory, e: C.Directory, g: string, disk: R.Disk)
    requires C.Whole(check, e) && C.Linked(e) == Some(g) && ShowAlike(d, e) && Views(k, disk, d)
    requires R.InForce(k, disk, m.pair) && m.pair.generation == g == m.generation && R.PairAgrees(k, m.pair)
    ensures OneBundle(check, k, m, e, g)
  {
  }

  /** Read again and whole, the files of a bundle in force are in force. */
  lemma ReadAgainInForce(check: C.Check, k: R.Checks, m: R.Manager, d: C.Directory, e: C.Directory, g: string,
          disk: R.Disk)
    requires OneBundle(check, k, m, d, g) && ShowAlike(d, e) && Views(k, disk, e) && IsRead(k, disk)
    ensures R.InForce(k, disk, m.pair)
  {
  }

  /** A read that works reads the files of a bundle in force whole. */
  lemma ShownIsRead(check: C.Check, k: R.Checks, m: R.Manager, d: C.Directory, e: C.Directory, g: string, look: Look,
          when: Moment)
    requires OneBundle(check, k, m, d, g) && ShowAlike(d, e) && ReadsAt(k, look, when)
    ensures IsRead(k, look(e, when))
  {
  }

  /** Whatever of the files can be read is what is in force. */
  ghost predicate Alike(k: R.Checks, disk: R.Disk, p: R.Pair) {
    R.LoadConfig(k, disk) in {None, Some(p.config)} && (k.hasTargets ==> R.LoadTargets(k, disk) in {None, p.targets})
  }

  lemma LoadsAsInForce(check: C.Check, k: R.Checks, m: R.Manager, d: C.Directory, e: C.Directory, g: string,
          disk: R.Disk)
    requires OneBundle(check, k, m, d, g) && ShowAlike(d, e) && Views(k, disk, e)
    ensures Alike(k, disk, m.pair)
  {
  }

  /** No reload of such files changes the pair. */
  lemma ReloadKeepsPair(k: R.Checks, m: R.Manager, disk: R.Disk, doConfig: bool, doTargets: bool)
    requires Alike(k, disk, m.pair) && R.PairAgrees(k, m.pair) && m.pair.generation == m.generation
    requires doTargets ==> k.hasTargets
    ensures var m' := R.Apply(k, disk, m, doConfig, doTargets); m'.pair == m.pair && m'.generation == m.generation
  {
    var m2, cfg, f := WhatIsRead(k, disk, m, doConfig, doTargets);
    SettleKeepsPair(k, m2, cfg, f);
  }

  lemma WhatIsRead(k: R.Checks, disk: R.Disk, m: R.Manager, doConfig: bool, doTargets: bool)
    returns (m2: R.Manager, cfg: Option<string>, f: Option<string>)
    ensures m2.pair == m.pair && m2.generation == m.generation
    ensures cfg == (if doConfig then R.LoadConfig(k, disk) else None)
    ensures f == if doTargets then R.LoadTargets(k, disk) else None
    ensures R.Apply(k, disk, m, doConfig, doTargets) == if cfg.None? && f.None? then m2 else R.Settle(k, m2, cfg, f)
  {
    var m1 := if doConfig then R.ConfigRead(k, disk, m) else m;
    m2 := if doTargets then R.TargetsRead(k, disk, m1) else m1;
    cfg := if doConfig then R.LoadConfig(k, disk) else None;
    f := if doTargets then R.LoadTargets(k, disk) else None;
  }

  lemma SettleKeepsPair(k: R.Checks, m: R.Manager, cfg: Option<string>, f: Option<string>)
    requires R.PairAgrees(k, m.pair) && m.pair.generation == m.generation
    requires cfg in {None, Some(m.pair.config)} && f in {None, m.pair.targets}
    ensures R.Settle(k, m, cfg, f).pair == m.pair && R.Settle(k, m, cfg, f).generation == m.generation
  {
  }

  lemma TickKeepsPair(k: R.Checks, m: R.Manager, disk: R.Disk)
    requires Alike(k, disk, m.pair) && R.PairAgrees(k, m.pair) && m.pair.generation == m.generation
    requires !k.hasTargets ==> !m.targetsUnread && !m.targetsWaits
    ensures R.Tick(k, disk, m).pair == m.pair && R.Tick(k, disk, m).generation == m.generation
  {
    ReloadKeepsPair(k, m, disk, R.ConfigDue(k, disk, m) || R.ConfigRetried(k, disk, m),
      R.TargetsDue(k, disk, m) || R.TargetsRetried(k, disk, m));
  }

  /** The files of a bundle load, and agree. */
  ghost predicate Loads(k: R.Checks, files: C.Files) {
    && CONFIG_PATH in files && k.configLoads(files[CONFIG_PATH])
    && (k.hasTargets ==>
          if TARGETS_PATH in files
          then k.targetsLoad(files[TARGETS_PATH]) && k.agrees(files[TARGETS_PATH], files[CONFIG_PATH])
          else k.absentTargets)
  }

  /** Files that are shown and read are refused exactly when they do not load and agree. */
  lemma RefusedAsRead(k: R.Checks, m: R.Manager, disk: R.Disk, d: C.Directory, files: C.Files)
    requires R.GoodChecks(k) && (!k.hasTargets ==> m.pair.targets == None)
    requires C.Shows(d, files) && Views(k, disk, d)
    requires CONFIG_PATH in files ==> R.Readable(disk.config)
    requires if TARGETS_PATH in files then R.Readable(disk.targets) else disk.targets.Absent?
    ensures R.Refused(k, disk, m, true, k.hasTargets) <==> !Loads(k, files)
  {
    assert C.Read(d, CONFIG_PATH) == if CONFIG_PATH in files then Some(files[CONFIG_PATH]) else None;
    assert C.Read(d, TARGETS_PATH) == if TARGETS_PATH in files then Some(files[TARGETS_PATH]) else None;
  }

  lemma SwappedIsRead(check: C.Check, k: R.Checks, m: R.Manager, look: Look, d: C.Directory, g: string, files: C.Files)
    requires R.GoodChecks(k) && R.Inv(k, m) && GoodLook(k, look)
    requires C.Whole(check, d) && C.Linked(d) == Some(g) && C.IsDir(d, g) && d[C.Gen(g)].files == files
    ensures ReadsAt(k, look, Swapped) ==> (R.Refused(k, look(d, Swapped), m, true, k.hasTargets) <==> !Loads(k, files))
  {
    C.WholeShows(check, d);
    if ReadsAt(k, look, Swapped) {
      RefusedAsRead(k, m, look(d, Swapped), d, files);
    }
  }

  // ---- a replica ----

  ghost predicate Sound(manager: R.Reloader)
    reads manager
  {
    R.GoodChecks(manager.k) && R.Inv(manager.k, manager.View())
  }

  /**
   * The files reloaded as those of a generation: taken, they are in force, and so are files that a pair was read from,
   * again; files like the pair in force leave it.
   */
  method ReloadAs(manager: R.Reloader, g: string, disk: R.Disk) returns (refused: bool)
    modifies manager
    requires Sound(manager)
    ensures Sound(manager) && manager.generation == g && R.PairAgrees(manager.k, manager.pair)
    ensures refused == R.Refused(manager.k, disk, old(manager.View()).(generation := g), true, manager.k.hasTargets)
    ensures !refused ==> R.InForce(manager.k, disk, manager.pair) && manager.pair.generation == g
    ensures forall p | R.InForce(manager.k, disk, p) && R.PairAgrees(manager.k, p) ::
      manager.pair == p.(generation := g)
    ensures Alike(manager.k, disk, old(manager.pair)) && old(manager.pair.generation) == g ==>
      manager.pair == old(manager.pair)
  {
    manager.generation := g;
    ghost var k, m := manager.k, manager.View();
    R.RefusedMeans(k, disk, m);
    R.ReloadKeeps(k, disk, m);
    forall p | R.InForce(k, disk, p) && R.PairAgrees(k, p) ensures R.ReloadNow(k, disk, m).pair == p.(generation := g) {
      R.ReadAgain(k, disk, m, p);
    }
    if Alike(k, disk, m.pair) && m.pair.generation == g {
      ReloadKeepsPair(k, m, disk, true, k.hasTargets);
    }
    refused := manager.ReloadFiles(disk);
  }

  /** A change beside the bundle in force. */
  lemma BesideIsOne(check: C.Check, k: R.Checks, m: R.Manager, d: C.Directory, e: C.Directory, g0: string, g: string)
    requires OneBundle(check, k, m, d, g0) && g != g0 && C.SameBut(d, e, g)
    ensures OneBundle(check, k, m, e, g0)
  {
    C.DiscardKeeps(check, d, e, g);
    WholeShowAlike(check, d, e);
  }

  /**
   * A bundle in force can be put back: the swap reads enough of what is linked, and the files can be read again then.
   */
  ghost predicate CanUndo(check: C.Check, k: R.Checks, m: R.Manager, was: C.Directory, g: string, tops: set<string>,
          io: C.Reads, look: Look) {
    OneBundle(check, k, m, was, g) && GoodLook(k, look) && ReadsAt(k, look, Restored) && C.Restores(was, tops, io)
  }

  /** Put back, the directory is whole, and the files of the bundle before are in force when they are reloaded. */
  lemma UndoneIsRead(check: C.Check, k: R.Checks, m: R.Manager, was: C.Directory, mid: C.Directory, after: C.Directory,
          g0: string, g: string, names: seq<string>, tops: set<string>, io: C.Reads, before: Option<string>,
          beforeNames: seq<string>, look: Look)
    requires CanUndo(check, k, m, was, g0, tops, io, look) && C.SameDirs(was, mid) && C.SameDirs(mid, after)
    requires C.ReadBefore(was, io, before, beforeNames) && forall n :: n in names <==> n in tops
    requires C.RelinkedTo(was, mid, Some(g), names, io.relinked)
    requires C.RelinkedTo(mid, after, before, beforeNames, io.restored)
    ensures C.Whole(check, after) && C.Linked(after) == Some(g0) && C.SameDirs(was, after)
    ensures R.InForce(k, look(after, Restored), m.pair)
  {
    C.RestoredExactly(check, was, mid, after, g, names, tops, io, before, beforeNames);
    WholeShowAlike(check, was, after);
    ShownIsRead(check, k, m, was, after, g0, look, Restored);
    ReadAgainInForce(check, k, m, was, after, g0, look(after, Restored));
  }

  /** And so it is when what is beside it has been removed. */
  lemma UndoneIsOne(check: C.Check, k: R.Checks, m: R.Manager, m': R.Manager, was: C.Directory, after: C.Directory,
          final: C.Directory, g0: string, g: string)
    requires OneBundle(check, k, m, was, g0) && m'.pair == m.pair && m'.generation == m.generation && g != g0
    requires C.Whole(check, after) && C.Linked(after) == Some(g0) && C.SameDirs(was, after)
    requires C.SameBut(after, final, g)
    ensures OneBundle(check, k, m', final, g0)
  {
    WholeShowAlike(check, was, after);
    StaysOne(check, k, m, m', was, after, g0);
    BesideIsOne(check, k, m', after, final, g0, g);
  }

  /** The same bundle, of the same manager's pair, over a directory that shows it too. */
  lemma StaysOne(check: C.Check, k: R.Checks, m: R.Manager, m': R.Manager, d: C.Directory, e: C.Directory, g: string)
    requires OneBundle(check, k, m, d, g) && m'.pair == m.pair && m'.generation == m.generation
    requires C.Whole(check, e) && C.Linked(e) == C.Linked(d) && ShowAlike(d, e)
    ensures OneBundle(check, k, m', e, g)
  {
  }

  class Replica {
    const cache: C.Cache
    const manager: R.Reloader
    const look: Look

    ghost predicate Valid()
      reads this, cache, manager
    {
      && cache.Sane() && Sound(manager) && GoodLook(manager.k, look)
    }

    /** The generation in force is the one bundle of the manager and of the directory. */
    ghost predicate Serves()
      reads this, cache, manager
    {
      && cache.inForce.Some?
      && OneBundle(cache.check, manager.k, manager.View(), cache.dir, cache.inForce.value)
    }

    constructor (cache': C.Cache, manager': R.Reloader, look': Look)
      ensures cache == cache' && manager == manager' && look == look'
    {
      cache, manager, look := cache', manager', look';
    }

    /** A tick of the watch, over the files that the links show. */
    method Tick()
      modifies manager
      requires Valid()
      ensures Valid()
      ensures old(Serves()) ==> Serves() && manager.pair == old(manager.pair)
    {
      ghost var m := manager.View();
      var disk := look(cache.dir, Watched);
      assert Views(manager.k, disk, cache.dir);
      if Serves() {
        LoadsAsInForce(cache.check, manager.k, m, cache.dir, cache.dir, cache.inForce.value, disk);
        TickKeepsPair(manager.k, m, disk);
        StaysOne(cache.check, manager.k, m, R.Tick(manager.k, disk, m), cache.dir, cache.dir, cache.inForce.value);
      }
      R.TickKeeps(manager.k, disk, m);
      manager.ReloadChanged(disk);
    }

    /** repair: the links of the generation in force put back, and its files reloaded. */
    method Mend(io: C.Reads) returns (ok: bool)
      modifies cache`dir, cache`trace, cache`faults, cache`ignored, manager
      requires Valid()
      ensures cache.faults >= old(cache.faults) && (ok <==> cache.faults == old(cache.faults))
      ensures Valid() && C.SameDirs(old(cache.dir), cache.dir)
      ensures old(Serves()) && ok ==> Serves() && manager.pair == old(manager.pair)
    {
      ghost var was, m := cache.dir, manager.View();
      var relinked;
      ok, relinked := cache.Repair(io, |cache.trace| - 1, {});
      if relinked {
        var g, disk := cache.inForce.value, look(cache.dir, Mended);
        assert Views(manager.k, disk, cache.dir);
        if old(Serves()) {
          WholeShowAlike(cache.check, was, cache.dir);
          LoadsAsInForce(cache.check, manager.k, m, was, cache.dir, g, disk);
        }
        var _ := ReloadAs(manager, g, disk);
        if old(Serves()) {
          StaysOne(cache.check, manager.k, m, manager.View(), was, cache.dir, g);
        }
      }
    }

    /** The bundle written beside the files in force, or found to be there. */
    method Prepare(g: string, files: C.Files, io: C.Reads) returns (ok: bool)
      modifies cache`dir, cache`trace, cache`faults, cache`ignored, manager
      requires Valid() && cache.inForce != Some(g)
      ensures cache.faults >= old(cache.faults) && (ok <==> cache.faults == old(cache.faults))
      ensures Valid() && (ok ==> C.IsDir(cache.dir, g) && cache.dir[C.Gen(g)].files == files)
      ensures old(Serves()) && ok ==> Serves() && manager.pair == old(manager.pair)
    {
      ok := cache.InUseUnchanged(g, files, io);
      if ok {
        return;
      }
      ok := Mend(io);
      if ok {
        ghost var d, m := cache.dir, manager.View();
        ok := cache.WriteBeside(g, files, io, |cache.trace| - 1, {});
        if old(Serves()) {
          BesideIsOne(cache.check, manager.k, m, d, cache.dir, cache.inForce.value, g);
        }
      }
    }

    /** The bundle swapped in is in force, and the others are removed. */
    method Keep(g: string, ghost disk: R.Disk)
      modifies cache`dir, cache`trace, cache`inForce, cache`faults, cache`ignored
      requires Valid() && C.Whole(cache.check, cache.dir) && C.Linked(cache.dir) == Some(g)
      requires Views(manager.k, disk, cache.dir) && R.InForce(manager.k, disk, manager.pair)
      requires manager.pair.generation == g == manager.generation
      ensures cache.faults == old(cache.faults)
      ensures Valid() && cache.inForce == Some(g) && Serves()
      ensures C.IsDir(cache.dir, g) && cache.dir[C.Gen(g)] == old(cache.dir[C.Gen(g)])
    {
      ghost var mid := cache.dir;
      cache.inForce := Some(g);
      var _ := cache.RemoveOtherGenerations(g, |cache.trace| - 1, {});
      WholeShowAlike(cache.check, mid, cache.dir);
      InForceIsOne(cache.check, manager.k, manager.View(), mid, cache.dir, g, disk);
    }

    /**
     * A bundle swapped in, that the reload refused: what was linked before put back and reloaded, and the bundle
     * removed.
     */
    method PutBack(g: string, names: seq<string>, before: Option<string>, beforeNames: seq<string>, io: C.Reads,
            previous: string, ghost was: C.Directory, ghost tops: set<string>, ghost m: R.Manager)
      returns (restored: bool)
      modifies cache`dir, cache`trace, cache`faults, cache`ignored, manager
      requires Valid() && cache.inForce != Some(g) && C.SameDirs(was, cache.dir)
      requires C.RelinkedTo(was, cache.dir, Some(g), names, io.relinked)
      requires C.ReadBefore(was, io, before, beforeNames) && forall n :: n in names <==> n in tops
      ensures cache.faults >= old(cache.faults) && (restored <==> cache.faults == old(cache.faults))
      ensures Valid()
      ensures restored && previous != g && CanUndo(cache.check, manager.k, m, was, previous, tops, io, look) ==>
        OneBundle(cache.check, manager.k, manager.View(), cache.dir, previous) && manager.pair == m.pair
    {
      ghost var from, mid := |cache.trace| - 1, cache.dir;
      ghost var can := CanUndo(cache.check, manager.k, m, was, previous, tops, io, look);
      restored := cache.Relink(before, beforeNames, io.restored, from, {});
      ghost var after := cache.dir;
      if restored {
        if can {
          UndoneIsRead(cache.check, manager.k, m, was, mid, after, previous, g, names, tops, io, before, beforeNames,
              look);
        }
        var _ := ReloadAs(manager, previous, look(cache.dir, Restored));
      }
      var _ := cache.Discard(g, io.discard, from, {});
      if restored && can && previous != g {
        UndoneIsOne(cache.check, manager.k, m, manager.View(), was, after, cache.dir, previous, g);
      }
    }

    /** The bundle swapped in reloaded, and kept in force or put back. */
    method ReloadSwapped(g: string, files: C.Files, names: seq<string>, before: Option<string>,
            beforeNames: seq<string>, io: C.Reads, ghost was: C.Directory) returns (outcome: C.Outcome)
      modifies cache`dir, cache`trace, cache`inForce, cache`faults, cache`ignored, manager
      requires Valid() && cache.inForce != Some(g) && C.SameDirs(was, cache.dir)
      requires C.RelinkedTo(was, cache.dir, Some(g), names, io.relinked)
      requires C.ReadBefore(was, io, before, beforeNames) && forall n :: n in names <==> n in C.Tops(files)
      requires C.Whole(cache.check, cache.dir) && C.IsDir(cache.dir, g) && cache.dir[C.Gen(g)].files == files
      ensures cache.faults >= old(cache.faults) && (outcome == C.Failed <==> cache.faults > old(cache.faults))
      ensures outcome != C.Failed && ReadsAt(manager.k, look, Swapped) ==>
        outcome == if Loads(manager.k, files) then C.Taken else C.Refused
      ensures Valid()
      ensures outcome == C.Taken ==>
        && cache.inForce == Some(g) && Serves()
        && C.IsDir(cache.dir, g) && cache.dir[C.Gen(g)].files == files
      ensures outcome != C.Taken ==> cache.inForce == old(cache.inForce)
      ensures
        && outcome == C.Refused && old(manager.generation) != g
        && CanUndo(cache.check, manager.k, old(manager.View()), was, old(manager.generation), C.Tops(files), io, look)
        ==>
          && OneBundle(cache.check, manager.k, manager.View(), cache.dir, old(manager.generation))
          && manager.pair == old(manager.pair)
    {
      ghost var m := manager.View();
      var disk := look(cache.dir, Swapped);
      assert Views(manager.k, disk, cache.dir);
      var previous := manager.generation;
      SwappedIsRead(cache.check, manager.k, m.(generation := g), look, cache.dir, g, files);
      var refused := ReloadAs(manager, g, disk);
      if !refused {
        Keep(g, disk);
        return C.Taken;
      }
      var restored := PutBack(g, names, before, beforeNames, io, previous, was, C.Tops(files), m);
      outcome := if restored then C.Refused else C.Failed;
    }

    /** The bundle in its directory swapped in and reloaded, or what was linked before put back and reloaded. */
    method PutInForce(g: string, files: C.Files, io: C.Reads) returns (outcome: C.Outcome)
      modifies cache`dir, cache`trace, cache`inForce, cache`faults, cache`ignored, manager
      requires Valid() && cache.inForce != Some(g)
      requires cache.check(g, files) && C.IsDir(cache.dir, g) && cache.dir[C.Gen(g)].files == files
      ensures cache.faults >= old(cache.faults) && (outcome == C.Failed <==> cache.faults > old(cache.faults))
      ensures outcome != C.Failed && ReadsAt(manager.k, look, Swapped) ==>
        outcome == if Loads(manager.k, files) then C.Taken else C.Refused
      ensures Valid()
      ensures outcome == C.Taken ==>
        && cache.inForce == Some(g) && Serves()
        && C.IsDir(cache.dir, g) && cache.dir[C.Gen(g)].files == files
      ensures outcome != C.Taken ==> cache.inForce == old(cache.inForce)
      ensures
        && outcome == C.Refused && old(Serves()) && ReadsAt(manager.k, look, Restored)
        && C.Restores(old(cache.dir), C.Tops(files), io)
        ==> Serves() && manager.pair == old(manager.pair)
    {
      ghost var from, was, tops := |cache.trace| - 1, cache.dir, C.Tops(files);
      var names := cache.TopNames(files);
      assert C.Finds(cache.check, was, Some(g), names, io.relinked);
      var swapped, before, beforeNames := cache.Swap(g, names, io, tops, from, {});
      if !swapped {
        var _ := cache.Discard(g, io.discard, from, {});
        return C.Failed;
      }
      C.RelinkedIsWhole(cache.check, was, cache.dir, Some(g), names, io.relinked);
      outcome := ReloadSwapped(g, files, names, before, beforeNames, io, was);
    }

    /** A bundle the check before the swap refuses is removed from beside the one in force. */
    method Drop(g: string, io: C.Reads)
      modifies cache`dir, cache`trace, cache`faults, cache`ignored
      requires Valid() && cache.inForce != Some(g)
      ensures Valid() && cache.faults == old(cache.faults)
      ensures old(Serves()) ==> Serves()
    {
      ghost var d := cache.dir;
      var _ := cache.Discard(g, io.discard, |cache.trace| - 1, {});
      if old(Serves()) {
        BesideIsOne(cache.check, manager.k, manager.View(), d, cache.dir, cache.inForce.value, g);
      }
    }

    /**
     * apply: taken, the manager's pair and what the links show are of the new bundle; refused, whatever of its files
     * had gone in force, both are of the one before again. accepted says whether the check before the swap takes it.
     */
    method Apply(g: string, files: C.Files, accepted: bool, io: C.Reads) returns (outcome: C.Outcome)
      modifies cache`dir, cache`trace, cache`inForce, cache`faults, cache`ignored, manager
      requires Valid() && cache.inForce != Some(g)
      ensures cache.faults >= old(cache.faults) && (outcome == C.Failed <==> cache.faults > old(cache.faults))
      ensures outcome != C.Failed && ReadsAt(manager.k, look, Swapped) ==>
        outcome == if cache.check(g, files) && accepted && Loads(manager.k, files) then C.Taken else C.Refused
      ensures Valid()
      ensures outcome == C.Taken ==>
        && cache.check(g, files) && accepted && cache.inForce == Some(g) && Serves()
        && C.IsDir(cache.dir, g) && cache.dir[C.Gen(g)].files == files
      ensures outcome != C.Taken ==> cache.inForce == old(cache.inForce)
      ensures
        && outcome == C.Refused && old(Serves()) && io.swap && io.unlisted == {} && ReadsAt(manager.k, look, Restored)
        ==> Serves() && manager.pair == old(manager.pair)
    {
      if !cache.check(g, files) {
        return C.Refused;
      }
      var ok := Prepare(g, files, io);
      if !ok {
        return C.Failed;
      }
      if !accepted {
        Drop(g, io);
        return C.Refused;
      }
      outcome := PutInForce(g, files, io);
    }
  }
}
