/**
 * The cache directory of a replica (internal/allocclient/cache.go): each generation's files in a directory of their
 * own, a link ..data to the one in force, and a link through it for each top-level name. Every system call may fail,
 * and the process may stop after any of them; trace is every state the directory was ever in. A call that changes the
 * directory fails where it is made. A read that fails is taken for an answer, so which of them do is an input (Reads).
 */
module CacheDirectory {
  import opened Common

  /** A file of a bundle: its top-level name, and the rest of its path. */
  datatype Path = Path(top: string, rest: string)

  type Files = map<Path, string>

  /** The names in the directory: ..data, ..tmp-link, ..gen-<generation>, and those that are not the directory's own. */
  datatype Name = Data | Tmp | Gen(generation: string) | Top(name: string)

  datatype Target = ToGen(generation: string) | ThroughData(name: string) | Elsewhere(path: string)

  datatype Entry = Link(target: Target) | Dir(files: Files) | File(content: string)

  type Directory = map<Name, Entry>

  datatype Bundle = Bundle(generation: string, files: Files)

  // Whether the files are a bundle of the generation that the client takes: their digest is it (checkBundle).
  type Check = (string, Files) -> bool

  /** Digests do not collide. */
  ghost predicate Injective(check: Check) {
    forall g, a, b :: check(g, a) && check(g, b) ==> a == b
  }

  const CONFIG := "config.yaml"
  const TARGETS := "static-targets.yaml"

  predicate IsDir(d: Directory, g: string) {
    Gen(g) in d && d[Gen(g)].Dir?
  }

  predicate Through(d: Directory, n: string) {
    Top(n) in d && d[Top(n)] == Link(ThroughData(n))
  }

  function Linked(d: Directory): Option<string> {
    if Data in d && d[Data].Link? && d[Data].target.ToGen? then Some(d[Data].target.generation) else None
  }

  predicate Installed(check: Check, d: Directory, g: string) {
    IsDir(d, g) && check(g, d[Gen(g)].files) && forall p | p in d[Gen(g)].files :: Through(d, p.top)
  }

  /** CachedGeneration: the generation ..data names, when its files are there and all linked. */
  function Cached(check: Check, d: Directory): Option<string> {
    if Linked(d).Some? && Installed(check, d, Linked(d).value) then Linked(d) else None
  }

  /** What a reader finds at a path, through the links. */
  function Read(d: Directory, p: Path): Option<string> {
    if Linked(d).Some? && IsDir(d, Linked(d).value) && Through(d, p.top) && p in d[Gen(Linked(d).value)].files
    then Some(d[Gen(Linked(d).value)].files[p])
    else None
  }

  /** The directory holds a bundle, or ..data names nothing. */
  ghost predicate Whole(check: Check, d: Directory) {
    Cached(check, d) == Linked(d)
  }

  ghost predicate Shows(d: Directory, files: Files) {
    forall p :: Read(d, p) == if p in files then Some(files[p]) else None
  }

  /** What a whole directory shows is one generation's files exactly, and its generation says which. */
  lemma WholeShows(check: Check, d: Directory)
    requires Whole(check, d)
    ensures Linked(d).None? ==> Shows(d, map[])
    ensures Linked(d).Some? ==> IsDir(d, Linked(d).value) && Shows(d, d[Gen(Linked(d).value)].files)
  {
  }

  /** Two whole directories of one generation show the same. */
  lemma SameGenerationSameFiles(check: Check, d: Directory, e: Directory, p: Path)
    requires Injective(check) && Whole(check, d) && Whole(check, e) && Linked(d) == Linked(e)
    ensures Read(d, p) == Read(e, p)
  {
    if Linked(d).Some? {
      var g := Linked(d).value;
      assert check(g, d[Gen(g)].files) && check(g, e[Gen(g)].files);
    }
  }

  // ---- what may happen to the directory ----

  /** One change: the directory stays whole, of a generation allowed, and the directory ..data names is not touched. */
  ghost predicate Allowed(check: Check, d: Directory, e: Directory, gens: set<Option<string>>) {
    && Whole(check, e) && Linked(e) in gens
    && (Linked(d).Some? && Gen(Linked(d).value) in d ==>
          Gen(Linked(d).value) in e && e[Gen(Linked(d).value)] == d[Gen(Linked(d).value)])
  }

  ghost predicate AllowedFrom(check: Check, trace: seq<Directory>, from: nat, gens: set<Option<string>>) {
    && from < |trace|
    && forall i | from < i < |trace| :: Allowed(check, trace[i - 1], trace[i], gens)
  }

  /**
   * At every moment of it, and so wherever the process stops, the directory holds a generation allowed, whole: what is
   * read through the links is that generation's files exactly, the same as at any other moment of that generation.
   */
  lemma EveryMoment(check: Check, trace: seq<Directory>, from: nat, gens: set<Option<string>>, i: nat, j: nat, p: Path)
    requires Injective(check) && AllowedFrom(check, trace, from, gens) && Whole(check, trace[from])
    requires from <= i < |trace| && from <= j < |trace|
    ensures i > from ==> Cached(check, trace[i]) in gens
    ensures Cached(check, trace[i]) == Linked(trace[i])
    ensures Cached(check, trace[i]).Some? ==>
      var g := Cached(check, trace[i]).value; IsDir(trace[i], g) && Shows(trace[i], trace[i][Gen(g)].files)
    ensures Cached(check, trace[i]).None? ==> Shows(trace[i], map[])
    ensures Linked(trace[i]) == Linked(trace[j]) ==> Read(trace[i], p) == Read(trace[j], p)
  {
    assert i > from ==> Allowed(check, trace[i - 1], trace[i], gens);
    assert j > from ==> Allowed(check, trace[j - 1], trace[j], gens);
    WholeShows(check, trace[i]);
    if Linked(trace[i]) == Linked(trace[j]) {
      SameGenerationSameFiles(check, trace[i], trace[j], p);
    }
  }

  /**
   * Of the reads that a bundle's way in force makes: whether those of ..data work, by the one that looks whether the
   * bundle is in use, by the repair, by the swap, and by the removal of a directory; whether that of the files in use
   * does; and the links that are missed by the listing of the swap, of the relinking in it, of putting back, and of the
   * repair. All are missed when the directory cannot be listed.
   */
  datatype Reads = Reads(inUse: bool, repair: bool, swap: bool, discard: bool, tree: bool,
    unlisted: set<string>, relinked: set<string>, restored: set<string>, repaired: set<string>)

  /** The directory of the generation that ..data names is there. */
  predicate IsNamed(d: Directory) {
    Linked(d).Some? && IsDir(d, Linked(d).value)
  }

  function Tops(files: Files): set<string> {
    set p | p in files :: p.top
  }

  /** The files of a generation are in its directory. */
  ghost predicate Holds(check: Check, d: Directory, g: string) {
    IsDir(d, g) && check(g, d[Gen(g)].files)
  }

  // ---- what a change leaves as it was ----

  /** The directories of the generations are as they were. */
  ghost predicate SameDirs(d: Directory, e: Directory) {
    forall g :: (Gen(g) in d <==> Gen(g) in e) && (Gen(g) in d ==> d[Gen(g)] == e[Gen(g)])
  }

  /** The entry of a top-level name is the same. */
  ghost predicate SameAt(d: Directory, e: Directory, n: string) {
    (Top(n) in d <==> Top(n) in e) && (Top(n) in d ==> d[Top(n)] == e[Top(n)])
  }

  ghost predicate SameTops(d: Directory, e: Directory) {
    forall n :: SameAt(d, e, n)
  }

  /** The names that link through ..data are the same. */
  ghost predicate SameLinks(d: Directory, e: Directory) {
    forall n :: Through(d, n) <==> Through(e, n)
  }

  /** Nothing but the directory of the generation differs. */
  ghost predicate SameBut(d: Directory, e: Directory, g: string) {
    forall x | x != Gen(g) :: (x in d <==> x in e) && (x in d ==> d[x] == e[x])
  }

  /** Only the temporary link differs. */
  ghost predicate SameButTmp(d: Directory, e: Directory) {
    d - {Tmp} == e - {Tmp}
  }

  lemma SameButTmpSame(d: Directory, e: Directory)
    requires SameButTmp(d, e)
    ensures SameDirs(d, e) && Linked(d) == Linked(e) && SameTops(d, e) && SameLinks(d, e)
  {
    assert forall x :: x != Tmp ==> (x in d <==> x in d - {Tmp}) && (x in e <==> x in e - {Tmp});
    assert forall x | x in d && x != Tmp :: d[x] == (d - {Tmp})[x];
    assert forall x | x in e && x != Tmp :: e[x] == (e - {Tmp})[x];
  }

  lemma TmpsAlike(d: Directory, e: Directory, target: Target)
    requires e in {d, d - {Tmp}, (d - {Tmp})[Tmp := Link(target)]}
    ensures SameButTmp(d, e)
  {
  }

  lemma SameButTmpAllowed(check: Check, d: Directory, e: Directory, gens: set<Option<string>>)
    requires SameButTmp(d, e) && Whole(check, d) && Linked(d) in gens
    ensures Allowed(check, d, e, gens)
  {
    SameButTmpSame(d, e);
  }

  /** A link through ..data made. */
  function WithLink(d: Directory, n: string): Directory {
    (d - {Tmp})[Top(n) := Link(ThroughData(n))]
  }

  lemma LinkMade(d: Directory, n: string)
    ensures var e := WithLink(d, n);
            && Linked(e) == Linked(d) && SameDirs(d, e)
            && (forall m :: Through(e, m) <==> Through(d, m) || m == n)
            && (forall m | m != n :: SameAt(d, e, m))
  {
    var e := WithLink(d, n);
    assert forall x | x != Tmp && x != Top(n) :: (x in d <==> x in e) && (x in d ==> d[x] == e[x]);
  }

  lemma LinkAllowed(check: Check, d: Directory, n: string, gens: set<Option<string>>)
    requires Whole(check, d) && Linked(d) in gens
    ensures Allowed(check, d, WithLink(d, n), gens)
  {
    LinkMade(d, n);
  }

  /** ..data put at a generation. */
  function WithData(d: Directory, g: string): Directory {
    (d - {Tmp})[Data := Link(ToGen(g))]
  }

  lemma DataMade(d: Directory, g: string)
    ensures var e := WithData(d, g); Linked(e) == Some(g) && SameDirs(d, e) && SameTops(d, e) && SameLinks(d, e)
  {
    var e := WithData(d, g);
    assert forall x | x != Tmp && x != Data :: (x in d <==> x in e) && (x in d ==> d[x] == e[x]);
  }

  lemma DataAllowed(check: Check, d: Directory, g: string, gens: set<Option<string>>)
    requires Installed(check, d, g) && Some(g) in gens
    ensures Allowed(check, d, WithData(d, g), gens)
  {
    DataMade(d, g);
  }

  lemma LinkRemoved(d: Directory, n: string)
    ensures var e := d - {Top(n)};
            && Linked(e) == Linked(d) && SameDirs(d, e)
            && (forall m :: Through(e, m) <==> Through(d, m) && m != n)
            && (forall m | m != n :: SameAt(d, e, m))
  {
    var e := d - {Top(n)};
    assert forall x | x != Top(n) :: (x in d <==> x in e) && (x in d ==> d[x] == e[x]);
  }

  lemma UnlinkAllowed(check: Check, d: Directory, n: string, gens: set<Option<string>>)
    requires Whole(check, d) && Linked(d) in gens
    requires Linked(d).Some? ==> n !in Tops(d[Gen(Linked(d).value)].files)
    ensures Allowed(check, d, d - {Top(n)}, gens)
  {
    LinkRemoved(d, n);
    var e := d - {Top(n)};
    if Linked(d).Some? {
      var files := d[Gen(Linked(d).value)].files;
      forall p | p in files ensures Through(e, p.top) {
        assert Through(d, p.top) && p.top in Tops(files);
      }
    }
  }

  lemma DataRemoved(d: Directory)
    ensures var e := d - {Data}; Linked(e) == None && SameDirs(d, e) && SameTops(d, e) && SameLinks(d, e)
  {
  }

  /** A generation's directory changed in any way, when it is not the one ..data names. */
  lemma TreeAllowed(check: Check, d: Directory, e: Directory, g: string, gens: set<Option<string>>)
    requires Whole(check, d) && Linked(d) in gens && Linked(d) != Some(g) && SameBut(d, e, g)
    ensures Allowed(check, d, e, gens)
  {
  }

  /** The one ..data names can be changed in no way. */
  lemma NamedTreeStays(check: Check, d: Directory, e: Directory, g: string, gens: set<Option<string>>)
    requires Linked(d) == Some(g) && IsDir(d, g) && SameBut(d, e, g) && d != e
    ensures !Allowed(check, d, e, gens)
  {
    assert Gen(g) in e && e[Gen(g)] == d[Gen(g)] ==> d == e;
  }

  /** What a discard that works leaves. */
  function Discarded(d: Directory, g: string, works: bool): Directory {
    if works && Linked(d) == Some(g) then d else d - {Gen(g)}
  }

  /**
   * A whole directory stays whole, and goes on showing what it shows, exactly when ..data can be read, or names another
   * generation.
   */
  lemma DiscardedExactly(check: Check, d: Directory, g: string, works: bool, p: Path)
    requires Whole(check, d)
    ensures var e := Discarded(d, g, works);
            && Linked(e) == Linked(d)
            && (Whole(check, e) <==> works || Linked(d) != Some(g))
            && (Whole(check, e) ==> Read(e, p) == Read(d, p))
            && (!Whole(check, e) ==> Cached(check, e) == None && Shows(e, map[]))
  {
  }

  lemma AllowedBefore(check: Check, early: seq<Directory>, late: seq<Directory>, from: nat, gens: set<Option<string>>)
    requires early <= late && from < |early| && AllowedFrom(check, late, from, gens)
    ensures AllowedFrom(check, early, from, gens)
  {
    forall i | from < i < |early| ensures Allowed(check, early[i - 1], early[i], gens) {
      assert early[i] == late[i] && early[i - 1] == late[i - 1];
    }
  }

  /** A trace on which the directory ..data names has come to be missing. */
  lemma RemovedIsNotAllowed(check: Check, early: seq<Directory>, late: seq<Directory>, from: nat, g: string,
          gens: set<Option<string>>)
    requires early <= late && from < |early| && late != [] && Linked(late[|late| - 1]) == Some(g)
    requires IsDir(early[|early| - 1], g) && Gen(g) !in late[|late| - 1]
    ensures !AllowedFrom(check, late, from, gens)
  {
    assert early != late;
    var k := |late| - 1;
    assert !Allowed(check, late[k - 1], late[k], gens);
  }

  // ---- links made and removed ----

  /** The links are those of names, and those the listing missed; ..data names g. */
  ghost predicate RelinkedTo(d: Directory, e: Directory, g: Option<string>, names: seq<string>, missed: set<string>) {
    Linked(e) == g && forall n :: Through(e, n) <==> n in names || (Through(d, n) && n in missed)
  }

  /** Every top-level name of g's files is to be linked, or is linked and will not be seen to be. */
  ghost predicate Finds(check: Check, d: Directory, g: Option<string>, names: seq<string>, missed: set<string>) {
    g.Some? ==>
      && Holds(check, d, g.value)
      && forall n | n in Tops(d[Gen(g.value)].files) :: n in names || (Through(d, n) && n in missed)
  }

  /** A directory relinked is whole exactly when every name was found. */
  lemma RelinkedIsWhole(check: Check, d: Directory, e: Directory, g: Option<string>, names: seq<string>,
          missed: set<string>)
    requires SameDirs(d, e) && RelinkedTo(d, e, g, names, missed)
    ensures Whole(check, e) <==> Finds(check, d, g, names, missed)
  {
    if g.Some? && Holds(check, d, g.value) {
      var files := d[Gen(g.value)].files;
      assert forall p | p in files :: p.top in Tops(files);
      assert forall n | n in Tops(files) :: exists p :: p in files && p.top == n;
      assert Finds(check, d, g, names, missed) <==> forall n | n in Tops(files) :: Through(e, n);
    }
  }

  /**
   * What the swap has read is enough to put the directory back: nothing was linked, or what was is known and so is
   * every one of its links, but for one that is not known for a link all the way and so is never removed.
   */
  ghost predicate Restores(d: Directory, tops: set<string>, io: Reads) {
    IsNamed(d) ==>
      && io.swap
      && forall n | n in Tops(d[Gen(Linked(d).value)].files) && n in io.unlisted ::
          n in io.restored && (n in tops || n in io.relinked)
  }

  /** What the swap takes for the generation and the links before it. */
  ghost predicate ReadBefore(d: Directory, io: Reads, before: Option<string>, beforeNames: seq<string>) {
    && before == (if io.swap then Linked(d) else None)
    && forall n :: n in beforeNames <==> Through(d, n) && n !in io.unlisted
  }

  /** Links that relinking d would keep are links still. */
  ghost predicate LinksKept(d: Directory, e: Directory, names: seq<string>, missed: set<string>) {
    forall n | Through(d, n) && (n in names || n in missed) :: Through(e, n)
  }

  lemma RestoreFinds(check: Check, d: Directory, e: Directory, names: seq<string>, tops: set<string>, io: Reads,
          before: Option<string>, beforeNames: seq<string>)
    requires Whole(check, d) && SameDirs(d, e) && LinksKept(d, e, names, io.relinked)
    requires ReadBefore(d, io, before, beforeNames) && (forall n :: n in names <==> n in tops)
    requires Restores(d, tops, io)
    ensures before == Linked(d) && Finds(check, e, before, beforeNames, io.restored)
  {
    if Linked(d).Some? {
      var files := d[Gen(Linked(d).value)].files;
      forall n | n in Tops(files) ensures n in beforeNames || (Through(e, n) && n in io.restored) {
        var p :| p in files && p.top == n;
        assert Through(d, p.top);
      }
    }
  }

  /**
   * Putting back, when every call of it works: the directory is whole and of the generation before exactly when the
   * swap had read enough.
   */
  lemma RestoredExactly(check: Check, d: Directory, swapped: Directory, e: Directory, g: string, names: seq<string>,
          tops: set<string>, io: Reads, before: Option<string>, beforeNames: seq<string>)
    requires Whole(check, d) && SameDirs(d, swapped) && SameDirs(swapped, e)
    requires ReadBefore(d, io, before, beforeNames) && (forall n :: n in names <==> n in tops)
    requires RelinkedTo(d, swapped, Some(g), names, io.relinked)
    requires RelinkedTo(swapped, e, before, beforeNames, io.restored)
    ensures Whole(check, e) && Linked(e) == Linked(d) <==> Restores(d, tops, io)
  {
    RelinkedIsWhole(check, swapped, e, before, beforeNames, io.restored);
    if Restores(d, tops, io) {
      RestoreFinds(check, d, swapped, names, tops, io, before, beforeNames);
    } else if Linked(e) == Linked(d) {
      var files := d[Gen(Linked(d).value)].files;
      var n :| n in Tops(files) && n in io.unlisted && !(n in io.restored && (n in tops || n in io.relinked));
      assert n !in beforeNames && !(Through(swapped, n) && n in io.restored);
    }
  }

  /**
   * The links of the directory are missed once, by the swap of a bundle that the reload then refuses. Put back, ..data
   * names the generation before and nothing shows it: no bundle is found at the next start, and no repair is needed.
   */
  lemma AllLinksLost(check: Check, was: Files, next: Files)
    requires was == map[Path(CONFIG, "") := "old"] && next == map[Path(CONFIG, "") := "new"]
    requires check("1", was) && check("2", next)
    ensures var gens := map[Gen("1") := Dir(was), Gen("2") := Dir(next)];
            var config := map[Top(CONFIG) := Link(ThroughData(CONFIG))];
            var d: Directory := gens + config + map[Data := Link(ToGen("1"))];
            var swapped: Directory := gens + config + map[Data := Link(ToGen("2"))];
            var e: Directory := gens + map[Data := Link(ToGen("1"))];
            var io := Reads(true, true, true, true, true, {CONFIG}, {}, {}, {});
            && Cached(check, d) == Some("1") && Whole(check, d) && ReadBefore(d, io, Some("1"), [])
            && RelinkedTo(d, swapped, Some("2"), [CONFIG], {}) && RelinkedTo(swapped, e, Some("1"), [], {})
            && Linked(e) == Some("1") && Cached(check, e) == None && Shows(e, map[])
  {
    var gens := map[Gen("1") := Dir(was), Gen("2") := Dir(next)];
    var e: Directory := gens + map[Data := Link(ToGen("1"))];
    assert Path(CONFIG, "") in e[Gen("1")].files;
  }

  /**
   * A directory with a bundle in use. A discard that cannot read ..data takes away the files it names, and so does,
   * before it writes them again, a writing with none in force after a look and a repair that could not: nothing is
   * shown meanwhile.
   */
  lemma NamedTreeLost(check: Check, was: Files)
    requires was == map[Path(CONFIG, "") := "was"] && check("1", was)
    ensures var links := map[Top(CONFIG) := Link(ThroughData(CONFIG)), Data := Link(ToGen("1"))];
            var d: Directory := links + map[Gen("1") := Dir(was)];
            var unread := Reads(false, false, true, false, true, {}, {}, {}, {});
            && Whole(check, d) && Cached(check, d) == Some("1") && Read(d, Path(CONFIG, "")) == Some("was")
            && !KnowsNamed(d, None, "1", was, unread)
            && Discarded(d, "1", false) == links
            && Linked(links) == Some("1") && Cached(check, links) == None && Shows(links, map[])
            && Shows(links + map[Gen("1") := Dir(map[])], map[])
  {
    var links := map[Top(CONFIG) := Link(ThroughData(CONFIG)), Data := Link(ToGen("1"))];
    var d: Directory := links + map[Gen("1") := Dir(was)];
    assert Through(d, CONFIG);
    assert Discarded(d, "1", false) == links;
  }

  // ---- the start ----

  /**
   * What the start removes: all but the installed bundle, its links, and the files of others. Links that cannot be read
   * are taken for files.
   */
  predicate Removes(d: Directory, x: Name, generation: Option<string>, unread: set<string>) {
    match x
    case Tmp => true
    case Gen(g) => Some(g) != generation
    case Data => generation.None?
    case Top(n) =>
      var through := Through(d, n) && n !in unread;
      if n == CONFIG || n == TARGETS then generation.None? || !through else generation.None? && through
  }

  ghost function Tidied(d: Directory, generation: Option<string>, unread: set<string>): Directory {
    d - set x | x in d && Removes(d, x, generation, unread)
  }

  /** A directory tidied is whole, and shows the bundle installed exactly, or nothing at all of the client's. */
  lemma TidiedIsWhole(check: Check, d: Directory, p: Path)
    ensures var e := Tidied(d, Cached(check, d), {});
            && Whole(check, e) && Linked(e) == Cached(check, d) == Cached(check, e)
            && (Cached(check, d).Some? ==> Read(e, p) == Read(d, p))
            && (Cached(check, d).None? ==> Top(CONFIG) !in e && Top(TARGETS) !in e && forall n :: !Through(e, n))
            && (forall x | x in e :: x in d && e[x] == d[x])
            && (forall n | Top(n) in d && n != CONFIG && n != TARGETS && !Through(d, n) :: Top(n) in e)
  {
    var g := Cached(check, d);
    var e := Tidied(d, g, {});
    if g.Some? {
      assert Data in e && Gen(g.value) in e;
      forall q | q in d[Gen(g.value)].files ensures Through(e, q.top) {
        assert Through(d, q.top);
      }
    }
  }

  /**
   * What the start leaves of a directory it can read: with a bundle installed, everything but a temporary link, other
   * generations' directories and a config.yaml or static-targets.yaml that is not the bundle's link; with none, what is
   * not the client's own and is neither of those two.
   */
  lemma TidiedHolds(check: Check, d: Directory, x: Name)
    ensures var e, g := Tidied(d, Cached(check, d), {}), Cached(check, d);
            && (x in e ==> x in d && e[x] == d[x])
            && (g.Some? ==>
                  (x in e <==>
                    && x in d && x != Tmp && (x.Gen? ==> x == Gen(g.value))
                    && (x in {Top(CONFIG), Top(TARGETS)} ==> d[x] == Link(ThroughData(x.name)))))
            && (g.None? ==>
                  (x in e <==>
                    && x in d && x.Top? && x.name != CONFIG && x.name != TARGETS
                    && d[x] != Link(ThroughData(x.name))))
  {
    assert x in d ==> (x in Tidied(d, Cached(check, d), {}) <==> !Removes(d, x, Cached(check, d), {}));
  }

  /** No link of the bundle installed that the start would take for a file is one of the two it would then remove. */
  ghost predicate LinksRead(d: Directory, unread: set<string>) {
    IsNamed(d) ==> Tops(d[Gen(Linked(d).value)].files) * unread * {CONFIG, TARGETS} == {}
  }

  /**
   * A bundle installed stays so over the start exactly when it is found, and its own two links can be read as it is
   * gone through the directory; found and not, a directory whose ..data stays is whole only with them.
   */
  lemma TidiedExactly(check: Check, d: Directory, finds: bool, unread: set<string>)
    requires Cached(check, d).Some?
    ensures var e := Tidied(d, if finds then Cached(check, d) else None, unread);
            && (Cached(check, e) == Cached(check, d) <==> finds && LinksRead(d, unread))
            && (Whole(check, e) <==> (finds ==> LinksRead(d, unread)))
  {
    var g := Cached(check, d);
    var generation := if finds then g else None;
    var e := Tidied(d, generation, unread);
    if finds {
      var files := d[Gen(g.value)].files;
      assert Data in e && Gen(g.value) in e;
      forall q | q in files ensures Through(d, q.top) && (Through(e, q.top) <==> q.top !in unread * {CONFIG, TARGETS}) {
        assert Removes(d, Top(q.top), g, unread) <==> q.top in unread * {CONFIG, TARGETS};
      }
      if n :| n in Tops(files) && n in unread * {CONFIG, TARGETS} {
        assert n in Tops(files) * unread * {CONFIG, TARGETS};
      } else {
        assert Tops(files) * unread * {CONFIG, TARGETS} == {};
        assert forall q | q in files :: q.top in Tops(files);
      }
    }
  }

  ghost predicate SomeOf(a: Files, b: Files) {
    forall p | p in a :: p in b && a[p] == b[p]
  }

  /** What is left of an entry by a removal that failed half way: all of it, some of a directory's files, or nothing. */
  ghost predicate LeftOf(d: Directory, e: Directory, x: Name) {
    x in e ==> x in d && (e[x] == d[x] || (d[x].Dir? && e[x].Dir? && SomeOf(e[x].files, d[x].files)))
  }

  /** Whatever removals fail, a bundle installed that is found and read stays the one installed. */
  lemma TidyingKeeps(check: Check, d: Directory, e: Directory, unread: set<string>, p: Path)
    requires Cached(check, d).Some? && LinksRead(d, unread)
    requires forall x | !Removes(d, x, Cached(check, d), unread) :: (x in e <==> x in d) && (x in d ==> e[x] == d[x])
    ensures Cached(check, e) == Cached(check, d) && Whole(check, e)
    ensures Read(e, p) == Read(d, p) || !Through(d, p.top)
  {
    var g := Cached(check, d).value;
    var files := d[Gen(g)].files;
    assert Data in d && !Removes(d, Data, Some(g), unread) && !Removes(d, Gen(g), Some(g), unread);
    forall q | q in files ensures Through(e, q.top) {
      assert Through(d, q.top) && q.top in Tops(files);
      assert q.top !in Tops(files) * unread * {CONFIG, TARGETS};
      assert !Removes(d, Top(q.top), Some(g), unread);
    }
  }

  /**
   * Tidy: what is removed and what could not be, and the generation installed. finds says whether what CachedGeneration
   * reads can be read, listed whether the directory can be listed, unread which links cannot be read as it is gone
   * through, and stuck which entries cannot be removed, or not all of them.
   */
  method Tidy(check: Check, d: Directory, finds: bool, listed: bool, unread: set<string>, stuck: set<Name>)
    returns (generation: Option<string>, e: Directory, all: bool)
    ensures generation == if finds then Cached(check, d) else None
    ensures forall x | !Removes(d, x, generation, unread) :: (x in e <==> x in d) && (x in d ==> e[x] == d[x])
    ensures forall x :: LeftOf(d, e, x)
    ensures listed ==> forall x | Removes(d, x, generation, unread) && x !in stuck :: x !in e
    ensures all <==> listed && forall x | x in d && Removes(d, x, generation, unread) :: x !in stuck
    ensures all ==> e == Tidied(d, generation, unread)
    ensures !listed ==> e == d
  {
    generation := if finds then Cached(check, d) else None;
    e, all := d, listed;
    if !listed {
      return;
    }
    var todo := d.Keys;
    while todo != {}
      invariant todo <= d.Keys
      invariant forall x | x in todo :: x in e
      invariant forall x | x in todo || !Removes(d, x, generation, unread) ::
          (x in e <==> x in d) && (x in d ==> e[x] == d[x])
      invariant forall x :: LeftOf(d, e, x)
      invariant forall x | x in e && Removes(d, x, generation, unread) && x !in stuck :: x in todo
      invariant all <==> forall x | x in d && Removes(d, x, generation, unread) && x !in todo :: x !in stuck
      decreases todo
    {
      ghost var was := e;
      var x :| x in todo;
      todo := todo - {x};
      if Removes(d, x, generation, unread) {
        if x !in stuck {
          e := e - {x};
        } else {
          all := false;
          if d[x].Dir? {
            var left: set<Path> := *;
            var some: Files := d[x].files - left;
            assert SomeOf(some, d[x].files);
            e := e[x := Dir(some)];
          }
        }
      }
      forall y ensures LeftOf(d, e, y) {
        assert LeftOf(d, was, y);
      }
    }
    if all {
      forall x ensures x in e <==> x in Tidied(d, generation, unread) {
        assert LeftOf(d, e, x);
      }
      assert e == Tidied(d, generation, unread);
    }
  }

  datatype Outcome = Taken | Refused | Failed

  /** Of the links that are not wanted, none is of a name of the generation ..data names. */
  ghost predicate NoneNeeded(d: Directory, names: seq<string>, have: seq<string>) {
    IsNamed(d) ==> forall n | n in have && n !in names :: n !in Tops(d[Gen(Linked(d).value)].files)
  }

  /** All of a generation's names found, and linked, is its bundle installed. */
  lemma FoundIsInstalled(check: Check, d: Directory, e: Directory, g: string, names: seq<string>, missed: set<string>)
    requires SameDirs(d, e) && Finds(check, d, Some(g), names, missed)
    requires forall n :: Through(e, n) <==> Through(d, n) || n in names
    ensures Installed(check, e, g)
  {
    forall p | p in e[Gen(g)].files ensures Through(e, p.top) {
      assert p.top in Tops(d[Gen(g)].files);
    }
  }

  /** A directory discarded, that ..data does not name or that was left, was nothing of what is shown. */
  lemma DiscardKeeps(check: Check, d: Directory, e: Directory, g: string)
    requires SameBut(d, e, g) && (Linked(d) == Some(g) ==> d == e)
    ensures Linked(e) == Linked(d) && (Whole(check, e) <==> Whole(check, d))
  {
  }

  /**
   * The directory ..data names is not taken for one beside it: a bundle in use unchanged is seen to be, or none is in
   * force and ..data can be read, or another is in force or named.
   */
  predicate KnowsNamed(d: Directory, inForce: Option<string>, g: string, files: Files, io: Reads) {
    inForce.Some? || Linked(d) != Some(g) || io.repair || IsRead(d, g, files, io)
  }

  /** A bundle in use is seen to be, and to be unchanged. */
  predicate IsRead(d: Directory, g: string, files: Files, io: Reads) {
    io.inUse && Linked(d) == Some(g) && io.tree && IsDir(d, g) && d[Gen(g)].files == files
  }

  /** Enough of the reads work for a bundle to be put in force, or not, with every step of it allowed. */
  ghost predicate ReadsEnough(d: Directory, inForce: Option<string>, g: string, files: Files, io: Reads) {
    KnowsNamed(d, inForce, g, files, io) && io.swap && io.unlisted == {} && io.discard
  }

  class Cache {
    const check: Check
    var dir: Directory
    var inForce: Option<string>
    var seen: Option<string>
    ghost var trace: seq<Directory>
    // The calls that failed so far: those that what asked for them fails with, and those whose failure is let be.
    ghost var faults: nat
    ghost var ignored: nat

    ghost predicate Traced()
      reads `dir, `trace
    {
      |trace| > 0 && trace[|trace| - 1] == dir
    }

    /** The generation in force has its files in its directory. */
    ghost predicate Sane()
      reads `dir, `trace, `inForce
    {
      Traced() && (inForce.Some? ==> Holds(check, dir, inForce.value))
    }

    /** Besides, the directory is whole. */
    ghost predicate Valid()
      reads `dir, `trace, `inForce
    {
      Sane() && Whole(check, dir)
    }

    /** Every step so far was allowed. */
    ghost predicate Safe(from: nat, gens: set<Option<string>>)
      reads `dir, `trace
    {
      Traced() && AllowedFrom(check, trace, from, gens) && Whole(check, dir) && Linked(dir) in gens
    }

    /** At the start, over a directory tidied: the generation that was found there and loaded, if any, is in force. */
    constructor (check': Check, d: Directory, generation: Option<string>)
      requires generation.Some? ==> Holds(check', d, generation.value)
      ensures check == check' && dir == d && trace == [d] && Sane() && inForce == seen == generation
    {
      check, dir, inForce, seen, trace := check', d, generation, generation, [d];
      faults, ignored := 0, 0;
    }

    // ---- system calls ----

    /** A call, which may fail, and does when it is not possible. */
    method Call(possible: bool) returns (works: bool)
      modifies `faults
      ensures works ==> possible && faults == old(faults)
      ensures !works ==> faults == old(faults) + 1
    {
      var fails: bool := *;
      works := possible && !fails;
      if !works {
        faults := faults + 1;
      }
    }

    method Change(d: Directory, ghost from: nat, ghost gens: set<Option<string>>)
      modifies `dir, `trace
      requires Traced()
      ensures Traced() && dir == d && trace == old(trace) + [d]
      ensures old(Safe(from, gens)) ==> (Safe(from, gens) <==> Allowed(check, old(dir), d, gens))
    {
      dir, trace := d, trace + [d];
      assert old(Safe(from, gens)) && Allowed(check, trace[|trace| - 2], trace[|trace| - 1], gens) ==>
        Safe(from, gens);
    }

    /** A temporary link left over removed. */
    method ClearTmp(ghost from: nat, ghost gens: set<Option<string>>) returns (ok: bool)
      modifies `dir, `trace, `faults
      requires Traced()
      ensures faults >= old(faults) && (ok <==> faults == old(faults))
      ensures Traced() && old(trace) <= trace && dir == if ok then old(dir) - {Tmp} else old(dir)
      ensures old(Safe(from, gens)) ==> Safe(from, gens)
    {
      ok := Call(Tmp !in dir || !dir[Tmp].Dir? || dir[Tmp].files == map[]);
      if ok && Tmp in dir {
        assert (dir - {Tmp}) - {Tmp} == dir - {Tmp};
        if Safe(from, gens) {
          SameButTmpAllowed(check, dir, dir - {Tmp}, gens);
        }
        Change(dir - {Tmp}, from, gens);
      }
      assert ok && Tmp !in old(dir) ==> old(dir) - {Tmp} == old(dir);
    }

    method MakeTmp(target: Target, ghost from: nat, ghost gens: set<Option<string>>) returns (ok: bool)
      modifies `dir, `trace, `faults
      requires Traced() && Tmp !in dir
      ensures faults >= old(faults) && (ok <==> faults == old(faults))
      ensures Traced() && old(trace) <= trace && dir == if ok then old(dir)[Tmp := Link(target)] else old(dir)
      ensures old(Safe(from, gens)) ==> Safe(from, gens)
    {
      ok := Call(true);
      if ok {
        assert dir[Tmp := Link(target)] - {Tmp} == dir - {Tmp};
        if Safe(from, gens) {
          SameButTmpAllowed(check, dir, dir[Tmp := Link(target)], gens);
        }
        Change(dir[Tmp := Link(target)], from, gens);
      }
    }

    /** link: any link or file at name is replaced in one rename. */
    method MakeLink(name: Name, target: Target, ghost from: nat, ghost gens: set<Option<string>>) returns (ok: bool)
      modifies `dir, `trace, `faults
      requires Traced() && (name.Data? || name.Top?)
      ensures faults >= old(faults) && (ok <==> faults == old(faults))
      ensures Traced() && old(trace) <= trace
      ensures ok ==> dir == (old(dir) - {Tmp})[name := Link(target)]
      ensures !ok ==> SameButTmp(old(dir), dir)
      ensures old(Safe(from, gens)) && Allowed(check, old(dir), (old(dir) - {Tmp})[name := Link(target)], gens) ==>
        Safe(from, gens)
    {
      ghost var was := dir;
      ok := ClearTmp(from, gens);
      if ok {
        ok := MakeTmp(target, from, gens);
      }
      TmpsAlike(was, dir, target);
      if !ok {
        return;
      }
      ok := Call(name !in dir || !dir[name].Dir?);
      if ok {
        SameButTmpSame(was, dir);
        Change((dir - {Tmp})[name := Link(target)], from, gens);
      }
    }

    /** linkedGeneration: none when ..data cannot be read, as when it names none. */
    method LinkedGeneration(works: bool) returns (g: Option<string>)
      ensures g == if works then Linked(dir) else None
    {
      g := if works then Linked(dir) else None;
    }

    /** linkedNames: the names that link through ..data, but those missed. */
    method LinkedNames(missed: set<string>) returns (have: seq<string>)
      ensures forall n :: n in have <==> Through(dir, n) && n !in missed
    {
      have := [];
      var todo := dir.Keys;
      while todo != {}
        invariant todo <= dir.Keys
        invariant forall n :: n in have <==> Through(dir, n) && n !in missed && Top(n) !in todo
        decreases todo
      {
        var x :| x in todo;
        todo := todo - {x};
        if x.Top? && Through(dir, x.name) && x.name !in missed {
          have := have + [x.name];
        }
      }
    }

    /** A link for each name that has none. */
    method LinkMissing(names: seq<string>, have: seq<string>, ghost from: nat,
            ghost gens: set<Option<string>>) returns (ok: bool)
      modifies `dir, `trace, `faults
      requires Traced() && forall n | n in have :: Through(dir, n)
      ensures faults >= old(faults) && (ok <==> faults == old(faults))
      ensures Traced() && old(trace) <= trace && Linked(dir) == old(Linked(dir)) && SameDirs(old(dir), dir)
      ensures forall n | n !in names :: SameAt(old(dir), dir, n)
      ensures forall n | Through(old(dir), n) :: Through(dir, n)
      ensures ok ==> forall n :: Through(dir, n) <==> Through(old(dir), n) || n in names
      ensures old(Safe(from, gens)) ==> Safe(from, gens)
    {
      ghost var was := dir;
      for i := 0 to |names|
        invariant Traced() && old(trace) <= trace && Linked(dir) == Linked(was) && SameDirs(was, dir)
        invariant faults == old(faults)
        invariant forall n | n !in names :: SameAt(was, dir, n)
        invariant forall n :: Through(dir, n) <==> Through(was, n) || n in names[..i]
        invariant old(Safe(from, gens)) ==> Safe(from, gens)
      {
        assert names[..i + 1] == names[..i] + [names[i]];
        if names[i] !in have {
          ghost var now := dir;
          LinkMade(dir, names[i]);
          if Safe(from, gens) {
            LinkAllowed(check, dir, names[i], gens);
          }
          ok := MakeLink(Top(names[i]), ThroughData(names[i]), from, gens);
          if !ok {
            SameButTmpSame(now, dir);
          }
          forall n | n !in names ensures SameAt(was, dir, n) {
            assert SameAt(was, now, n) && SameAt(now, dir, n);
          }
          if !ok {
            return false;
          }
        }
      }
      assert names[..|names|] == names;
      ok := true;
    }

    /** The links there were of names that are not wanted removed. */
    method Unlink(names: seq<string>, have: seq<string>, ghost from: nat, ghost gens: set<Option<string>>)
      returns (ok: bool)
      modifies `dir, `trace, `faults
      requires Traced()
      ensures faults >= old(faults) && (ok <==> faults == old(faults))
      ensures Traced() && old(trace) <= trace && Linked(dir) == old(Linked(dir)) && SameDirs(old(dir), dir)
      ensures forall n | n !in have || n in names :: SameAt(old(dir), dir, n)
      ensures ok ==> forall n :: Through(dir, n) <==> Through(old(dir), n) && (n in names || n !in have)
      ensures old(Safe(from, gens)) && NoneNeeded(old(dir), names, have) ==> Safe(from, gens)
    {
      ghost var was := dir;
      ghost var safe := Safe(from, gens) && NoneNeeded(dir, names, have);
      for i := 0 to |have|
        invariant Traced() && old(trace) <= trace && Linked(dir) == Linked(was) && SameDirs(was, dir)
        invariant faults == old(faults)
        invariant forall n | n !in have || n in names :: SameAt(was, dir, n)
        invariant forall n :: Through(dir, n) <==> Through(was, n) && (n in names || n !in have[..i])
        invariant safe ==> Safe(from, gens)
      {
        assert have[..i + 1] == have[..i] + [have[i]];
        if have[i] !in names {
          var works := Call(true);
          if !works {
            return false;
          }
          LinkRemoved(dir, have[i]);
          if safe {
            UnlinkAllowed(check, dir, have[i], gens);
          }
          ghost var now := dir;
          Change(dir - {Top(have[i])}, from, gens);
          forall n | n !in have || n in names ensures SameAt(was, dir, n) {
            assert SameAt(was, now, n) && SameAt(now, dir, n);
          }
        }
      }
      assert have[..|have|] == have;
      ok := true;
    }

    /** ..data replaced in one rename, or removed. */
    method PointData(g: Option<string>, ghost from: nat, ghost gens: set<Option<string>>) returns (ok: bool)
      modifies `dir, `trace, `faults
      requires Traced()
      ensures faults >= old(faults) && (ok <==> faults == old(faults))
      ensures Traced() && old(trace) <= trace && SameDirs(old(dir), dir)
      ensures Linked(dir) == if ok then g else old(Linked(dir))
      ensures SameTops(old(dir), dir) && SameLinks(old(dir), dir)
      ensures old(Safe(from, gens)) && g in gens && (g.Some? ==> Installed(check, old(dir), g.value)) ==>
        Safe(from, gens)
    {
      ghost var was := dir;
      if g.None? {
        var works := Call(true);
        if !works {
          return false;
        }
        DataRemoved(dir);
        Change(dir - {Data}, from, gens);
        return true;
      }
      DataMade(dir, g.value);
      if Installed(check, dir, g.value) && g in gens {
        DataAllowed(check, dir, g.value, gens);
      }
      ok := MakeLink(Data, ToGen(g.value), from, gens);
      if !ok {
        SameButTmpSame(was, dir);
        if Safe(from, gens) {
          assert Linked(dir) == Linked(was);
        }
      }
    }

    /**
     * relink: the links of names made, ..data replaced in one rename, and then the other links removed, but those that
     * the listing missed.
     */
    method Relink(g: Option<string>, names: seq<string>, missed: set<string>, ghost from: nat,
            ghost gens: set<Option<string>>) returns (ok: bool)
      modifies `dir, `trace, `faults
      requires Traced()
      ensures faults >= old(faults) && (ok <==> faults == old(faults))
      ensures Traced() && old(trace) <= trace && SameDirs(old(dir), dir) && Linked(dir) in {old(Linked(dir)), g}
      ensures forall n | n !in names && !Through(old(dir), n) :: SameAt(old(dir), dir, n)
      ensures LinksKept(old(dir), dir, names, missed)
      ensures ok ==> RelinkedTo(old(dir), dir, g, names, missed)
      ensures old(Safe(from, gens)) && g in gens && Finds(check, old(dir), g, names, missed) ==> Safe(from, gens)
    {
      ghost var was := dir;
      var have := LinkedNames(missed);
      ok := LinkMissing(names, have, from, gens);
      if !ok {
        return;
      }
      var synced := Call(true);
      if !synced {
        return false;
      }
      ghost var linked := dir;
      if g.Some? && Finds(check, was, g, names, missed) {
        FoundIsInstalled(check, was, dir, g.value, names, missed);
      }
      ok := PointData(g, from, gens);
      forall n | n !in names && !Through(was, n) ensures SameAt(was, dir, n) {
        assert SameAt(was, linked, n) && SameAt(linked, dir, n);
      }
      if !ok {
        return;
      }
      ghost var pointed := dir;
      ok := Unlink(names, have, from, gens);
      if ok {
        ok := Call(true);
      }
      forall n | n !in names && !Through(was, n) ensures SameAt(was, dir, n) {
        assert SameAt(was, pointed, n) && SameAt(pointed, dir, n);
      }
      forall n | Through(was, n) && (n in names || n in missed) ensures Through(dir, n) {
        assert Through(pointed, n) && SameAt(pointed, dir, n);
      }
    }

    /** swap: the new generation in force, or the one before put back; the outcome of either may be a failure. */
    method Swap(g: string, names: seq<string>, io: Reads, ghost tops: set<string>, ghost from: nat,
            ghost gens: set<Option<string>>) returns (ok: bool, before: Option<string>, beforeNames: seq<string>)
      modifies `dir, `trace, `faults
      requires Traced() && forall n :: n in names <==> n in tops
      ensures faults >= old(faults) && (ok <==> faults == old(faults))
      ensures Traced() && old(trace) <= trace && SameDirs(old(dir), dir)
      ensures Linked(dir) in {old(Linked(dir)), Some(g), before}
      ensures ReadBefore(old(dir), io, before, beforeNames)
      ensures ok ==>
        RelinkedTo(old(dir), dir, Some(g), names, io.relinked) && LinksKept(old(dir), dir, names, io.relinked)
      ensures
        && old(Safe(from, gens)) && Some(g) in gens && Finds(check, old(dir), Some(g), names, io.relinked)
        && (ok || Restores(old(dir), tops, io))
        ==> Safe(from, gens)
    {
      ghost var was := dir;
      before := LinkedGeneration(io.swap);
      beforeNames := LinkedNames(io.unlisted);
      ok := Relink(Some(g), names, io.relinked, from, gens);
      if !ok {
        if Whole(check, was) && Restores(was, tops, io) {
          RestoreFinds(check, was, dir, names, tops, io, before, beforeNames);
        }
        var _ := Relink(before, beforeNames, io.restored, from, gens);
      }
    }

    /** RemoveAll of a generation's directory, which may stop half way. */
    method RemoveTree(g: string, ghost from: nat, ghost gens: set<Option<string>>) returns (ok: bool)
      modifies `dir, `trace, `faults
      requires Traced()
      ensures faults >= old(faults) && (ok <==> faults == old(faults))
      ensures Traced() && old(trace) <= trace && SameBut(old(dir), dir, g)
      ensures ok ==> Gen(g) !in dir
      ensures old(Safe(from, gens)) ==> (Safe(from, gens) <==> old(Linked(dir)) != Some(g) || dir == old(dir))
    {
      ghost var safe := Safe(from, gens);
      if IsDir(dir, g) {
        var left: set<Path> := *;
        var files := dir[Gen(g)].files;
        var some: Files := files - left;
        if safe && Linked(dir) != Some(g) {
          TreeAllowed(check, dir, dir[Gen(g) := Dir(some)], g, gens);
        }
        if safe && Linked(dir) == Some(g) && some != files {
          NamedTreeStays(check, dir, dir[Gen(g) := Dir(some)], g, gens);
        }
        Change(dir[Gen(g) := Dir(some)], from, gens);
      }
      ok := Call(true);
      if ok && Gen(g) in dir {
        if Safe(from, gens) && Linked(dir) != Some(g) {
          TreeAllowed(check, dir, dir - {Gen(g)}, g, gens);
        }
        Change(dir - {Gen(g)}, from, gens);
      }
    }

    /** A file opened, written in part, and then whole. */
    method WriteFile(g: string, p: Path, content: string, ghost from: nat, ghost gens: set<Option<string>>)
      returns (ok: bool)
      modifies `dir, `trace, `faults
      requires Traced() && IsDir(dir, g)
      ensures faults >= old(faults) && (ok <==> faults == old(faults))
      ensures Traced() && old(trace) <= trace && SameBut(old(dir), dir, g)
      ensures ok ==> IsDir(dir, g) && dir[Gen(g)].files == old(dir[Gen(g)].files)[p := content]
      ensures old(Safe(from, gens)) && old(Linked(dir)) != Some(g) ==> Safe(from, gens)
    {
      var part: string := *;
      var files := dir[Gen(g)].files;
      if Safe(from, gens) && Linked(dir) != Some(g) {
        TreeAllowed(check, dir, dir[Gen(g) := Dir(files[p := part])], g, gens);
      }
      Change(dir[Gen(g) := Dir(files[p := part])], from, gens);
      ok := Call(true);
      if ok {
        if Safe(from, gens) && Linked(dir) != Some(g) {
          TreeAllowed(check, dir, dir[Gen(g) := Dir(files[p := content])], g, gens);
        }
        Change(dir[Gen(g) := Dir(files[p := content])], from, gens);
      }
    }

    /** The files written into the directory made for them. */
    method FillTree(g: string, files: Files, ghost from: nat, ghost gens: set<Option<string>>) returns (ok: bool)
      modifies `dir, `trace, `faults
      requires Traced() && IsDir(dir, g) && dir[Gen(g)].files == map[]
      ensures faults >= old(faults) && (ok <==> faults == old(faults))
      ensures Traced() && old(trace) <= trace && SameBut(old(dir), dir, g)
      ensures ok ==> IsDir(dir, g) && dir[Gen(g)].files == files
      ensures old(Safe(from, gens)) && old(Linked(dir)) != Some(g) ==> Safe(from, gens)
    {
      ghost var was := dir;
      var todo := files.Keys;
      while todo != {}
        invariant todo <= files.Keys && faults == old(faults)
        invariant Traced() && old(trace) <= trace && SameBut(was, dir, g) && IsDir(dir, g)
        invariant forall p :: p in dir[Gen(g)].files <==> p in files && p !in todo
        invariant forall p | p in dir[Gen(g)].files :: dir[Gen(g)].files[p] == files[p]
        invariant old(Safe(from, gens)) && Linked(was) != Some(g) ==> Safe(from, gens)
        decreases todo
      {
        var p :| p in todo;
        todo := todo - {p};
        ok := WriteFile(g, p, files[p], from, gens);
        if !ok {
          return;
        }
      }
      assert dir[Gen(g)].files == files;
      ok := Call(true);
    }

    method MakeTree(g: string, ghost from: nat, ghost gens: set<Option<string>>) returns (ok: bool)
      modifies `dir, `trace, `faults
      requires Traced()
      ensures faults >= old(faults) && (ok <==> faults == old(faults))
      ensures Traced() && old(trace) <= trace && dir == if ok then old(dir)[Gen(g) := Dir(map[])] else old(dir)
      ensures old(Safe(from, gens)) && old(Linked(dir)) != Some(g) ==> Safe(from, gens)
    {
      ok := Call(true);
      if ok {
        if Safe(from, gens) && Linked(dir) != Some(g) {
          TreeAllowed(check, dir, dir[Gen(g) := Dir(map[])], g, gens);
        }
        Change(dir[Gen(g) := Dir(map[])], from, gens);
      }
    }

    method WriteTree(g: string, files: Files, ghost from: nat, ghost gens: set<Option<string>>) returns (ok: bool)
      modifies `dir, `trace, `faults
      requires Traced()
      ensures faults >= old(faults) && (ok <==> faults == old(faults))
      ensures Traced() && old(trace) <= trace && SameBut(old(dir), dir, g)
      ensures ok ==> IsDir(dir, g) && dir[Gen(g)].files == files
      ensures old(Safe(from, gens)) && old(Linked(dir)) != Some(g) ==> Safe(from, gens)
      ensures old(Safe(from, gens)) && old(Linked(dir)) == Some(g) && ok ==> !AllowedFrom(check, trace, from, gens)
    {
      ghost var was := dir;
      ok := RemoveTree(g, from, gens);
      if !ok {
        return;
      }
      ghost var gone := trace;
      if old(Safe(from, gens)) && Linked(was) == Some(g) {
        RemovedIsNotAllowed(check, old(trace), gone, from, g, gens);
      }
      ok := MakeTree(g, from, gens);
      if !ok {
        return;
      }
      ok := FillTree(g, files, from, gens);
      if old(Safe(from, gens)) && AllowedFrom(check, trace, from, gens) {
        AllowedBefore(check, gone, trace, from, gens);
      }
    }

    /** discard: a generation's directory removed, unless ..data is read to name it; whether that was done whole. */
    method Discard(g: string, works: bool, ghost from: nat, ghost gens: set<Option<string>>) returns (done: bool)
      modifies `dir, `trace, `faults, `ignored
      requires Traced()
      ensures faults == old(faults) && ignored >= old(ignored) && (done <==> ignored == old(ignored))
      ensures Traced() && old(trace) <= trace && SameBut(old(dir), dir, g)
      ensures done ==> dir == Discarded(old(dir), g, works)
      ensures works && old(Linked(dir)) == Some(g) ==> done && dir == old(dir)
      ensures old(Safe(from, gens)) ==>
        (Safe(from, gens) <==> works || old(Linked(dir)) != Some(g) || dir == old(dir))
      ensures old(Safe(from, gens)) && done ==> (Safe(from, gens) <==> works || old(Linked(dir)) != Some(g))
    {
      ghost var was := dir;
      var linked := LinkedGeneration(works);
      if linked == Some(g) {
        return true;
      }
      done := RemoveTree(g, from, gens);
      ignored, faults := ignored + (faults - old(faults)), old(faults);
      assert done ==> dir == was - {Gen(g)};
    }

    method TopNames(files: Files) returns (names: seq<string>)
      ensures forall n :: n in names <==> n in Tops(files)
    {
      names := [];
      var todo := files.Keys;
      while todo != {}
        invariant todo <= files.Keys
        invariant forall p | p in files && p !in todo :: p.top in names
        invariant forall n | n in names :: n in Tops(files)
        decreases todo
      {
        var p :| p in todo;
        todo := todo - {p};
        if p.top !in names {
          names := names + [p.top];
        }
      }
    }

    /**
     * repair: the generation in force put back, when a swap or a restore cut short left ..data naming another. With
     * none in force a ..data that cannot be read is taken for none, and left.
     */
    method Repair(io: Reads, ghost from: nat, ghost gens: set<Option<string>>) returns (ok: bool, relinked: bool)
      modifies `dir, `trace, `faults
      requires Sane()
      ensures faults >= old(faults) && (ok <==> faults == old(faults))
      ensures Sane() && old(trace) <= trace && SameDirs(old(dir), dir) && Linked(dir) in {old(Linked(dir)), inForce}
      ensures ok ==> Linked(dir) == inForce || (!io.repair && inForce.None? && dir == old(dir))
      ensures io.repair && old(Linked(dir)) == inForce ==> ok && dir == old(dir)
      ensures !io.repair && inForce.None? ==> ok && dir == old(dir) && trace == old(trace)
      ensures relinked ==> ok && inForce.Some? && Whole(check, dir)
      ensures ok && inForce.Some? && !relinked ==> dir == old(dir)
      ensures old(Safe(from, gens)) && inForce in gens ==> Safe(from, gens)
    {
      ghost var was := dir;
      var linked := LinkedGeneration(io.repair);
      if linked == inForce {
        return true, false;
      }
      if inForce.None? {
        ok := Relink(None, [], io.repaired, from, gens);
        return ok, false;
      }
      var listed := Call(true);
      if !listed {
        return false, false;
      }
      var names := TopNames(dir[Gen(inForce.value)].files);
      ok := Relink(inForce, names, io.repaired, from, gens);
      if ok {
        RelinkedIsWhole(check, was, dir, inForce, names, io.repaired);
      }
      relinked := ok;
    }

    /** An entry removed that is another generation's directory, or a link left over. */
    method RemoveOther(x: Name, g: string, ghost from: nat, ghost gens: set<Option<string>>) returns (ok: bool)
      modifies `dir, `trace, `faults
      requires Valid() && Linked(dir) == Some(g) == inForce && (x == Tmp || (x.Gen? && x != Gen(g)))
      ensures faults >= old(faults) && (ok <==> faults == old(faults))
      ensures Valid() && old(trace) <= trace && Linked(dir) == Some(g) && dir.Keys <= old(dir.Keys) + {x}
      ensures forall y | y != x :: (y in dir <==> y in old(dir)) && (y in dir ==> dir[y] == old(dir)[y])
      ensures ok ==> x !in dir
      ensures old(Safe(from, gens)) ==> Safe(from, gens)
    {
      ghost var now := dir;
      if x.Gen? {
        ok := RemoveTree(x.generation, from, gens);
        TreeAllowed(check, now, dir, x.generation, {Linked(now)});
      } else {
        ok := Call(true);
        if ok && Tmp in dir {
          assert (dir - {Tmp}) - {Tmp} == dir - {Tmp};
          SameButTmpAllowed(check, dir, dir - {Tmp}, {Linked(dir)} + gens);
          Change(dir - {Tmp}, from, gens);
        }
      }
    }

    /** The directories of the other generations removed, and a link left over, as far as they can be. */
    method RemoveOtherGenerations(g: string, ghost from: nat, ghost gens: set<Option<string>>) returns (all: bool)
      modifies `dir, `trace, `faults, `ignored
      requires Valid() && Linked(dir) == Some(g) == inForce
      ensures faults == old(faults) && ignored >= old(ignored) && (all <==> ignored == old(ignored))
      ensures Valid() && old(trace) <= trace && Linked(dir) == Some(g)
      ensures IsDir(dir, g) && dir[Gen(g)] == old(dir[Gen(g)])
      ensures all ==> Tmp !in dir && forall h | Gen(h) in dir :: h == g
      ensures forall n :: SameAt(old(dir), dir, n)
      ensures old(Safe(from, gens)) ==> Safe(from, gens)
    {
      ghost var was := dir;
      all := true;
      var listed := Call(true);
      if !listed {
        ignored, faults := ignored + 1, old(faults);
        return false;
      }
      var todo := dir.Keys;
      while todo != {}
        invariant faults >= old(faults) && ignored == old(ignored) && (all <==> faults == old(faults))
        invariant todo <= was.Keys && dir.Keys <= was.Keys
        invariant Valid() && old(trace) <= trace && Linked(dir) == Some(g)
        invariant all ==> forall x | x in dir && (x == Tmp || (x.Gen? && x != Gen(g))) :: x in todo
        invariant forall x | x != Tmp && (x.Gen? ==> x == Gen(g)) ::
            (x in dir <==> x in was) && (x in dir ==> dir[x] == was[x])
        invariant old(Safe(from, gens)) ==> Safe(from, gens)
        decreases todo
      {
        var x :| x in todo;
        todo := todo - {x};
        if x == Tmp || (x.Gen? && x != Gen(g)) {
          var ok := RemoveOther(x, g, from, gens);
          all := all && ok;
        }
      }
      ignored, faults := ignored + (faults - old(faults)), old(faults);
    }

    /** inUseUnchanged: with none in force, the bundle is the one ..data names, and its files are there unchanged. */
    method InUseUnchanged(g: string, files: Files, io: Reads) returns (same: bool)
      ensures same <==> inForce.None? && IsRead(dir, g, files, io)
    {
      var linked := LinkedGeneration(io.inUse);
      same := inForce.None? && linked == Some(g) && io.tree && IsDir(dir, g) && dir[Gen(g)].files == files;
    }

    /** The bundle written beside the files in force; what of it could be is removed again. */
    method WriteBeside(g: string, files: Files, io: Reads, ghost from: nat, ghost gens: set<Option<string>>)
      returns (ok: bool)
      modifies `dir, `trace, `faults, `ignored
      requires Sane() && inForce != Some(g)
      ensures ignored >= old(ignored) && (ok ==> ignored == old(ignored))
      ensures faults >= old(faults) && (ok <==> faults == old(faults))
      ensures Sane() && old(trace) <= trace && SameBut(old(dir), dir, g)
      ensures ok ==> IsDir(dir, g) && dir[Gen(g)].files == files
      ensures old(Safe(from, gens)) && old(Linked(dir)) != Some(g) ==> Safe(from, gens)
      ensures old(Safe(from, gens)) && ok ==> (Safe(from, gens) <==> old(Linked(dir)) != Some(g))
    {
      ok := WriteTree(g, files, from, gens);
      if !ok {
        var _ := Discard(g, io.discard, from, gens);
      }
    }

    /** The bundle written beside the files in force, unless it is there, unchanged, with none in force. */
    method Prepare(g: string, files: Files, io: Reads, ghost from: nat, ghost gens: set<Option<string>>)
      returns (ok: bool)
      modifies `dir, `trace, `faults, `ignored
      requires Sane() && inForce != Some(g)
      ensures ignored >= old(ignored) && (ok ==> ignored == old(ignored))
      ensures faults >= old(faults) && (ok <==> faults == old(faults))
      ensures Sane() && old(trace) <= trace && Linked(dir) in {old(Linked(dir)), inForce}
      ensures ok ==> IsDir(dir, g) && dir[Gen(g)].files == files
      ensures
        && inForce.None? && io.inUse && io.tree && old(Linked(dir)) == Some(g)
        && old(IsDir(dir, g) && dir[Gen(g)].files == files)
        ==> ok && trace == old(trace)
      ensures old(Safe(from, gens)) && inForce in gens && KnowsNamed(old(dir), inForce, g, files, io) ==>
        Safe(from, gens)
      ensures old(Safe(from, gens)) && inForce in gens && ok ==>
        (Safe(from, gens) <==> KnowsNamed(old(dir), inForce, g, files, io))
    {
      ok := InUseUnchanged(g, files, io);
      if ok {
        return;
      }
      var relinked;
      ok, relinked := Repair(io, from, gens);
      if ok {
        ok := WriteBeside(g, files, io, from, gens);
      }
    }

    /**
     * A bundle swapped in, that the reload refused: what was linked before put back, and the bundle's directory
     * removed.
     */
    method PutBack(g: string, names: seq<string>, before: Option<string>, beforeNames: seq<string>, io: Reads,
            ghost was: Directory, ghost tops: set<string>, ghost from: nat, ghost gens: set<Option<string>>)
      returns (restored: bool)
      modifies `dir, `trace, `faults, `ignored
      requires Sane() && inForce != Some(g)
      requires SameDirs(was, dir) && RelinkedTo(was, dir, Some(g), names, io.relinked)
      requires LinksKept(was, dir, names, io.relinked)
      requires ReadBefore(was, io, before, beforeNames) && (forall n :: n in names <==> n in tops)
      ensures ignored >= old(ignored)
      ensures faults >= old(faults) && (restored <==> faults == old(faults))
      ensures restored && ignored == old(ignored) && Gen(g) in dir ==> io.discard && Linked(dir) == Some(g)
      ensures Sane() && old(trace) <= trace
      ensures restored && Whole(check, was) && (io.discard || Linked(was) != Some(g)) ==>
        (Whole(check, dir) && Linked(dir) == Linked(was) <==> Restores(was, tops, io))
      ensures
        && old(Safe(from, gens)) && Whole(check, was) && Linked(was) in gens && io.discard && Restores(was, tops, io)
        ==> Safe(from, gens)
    {
      ghost var mid := dir;
      if Whole(check, was) && Restores(was, tops, io) {
        RestoreFinds(check, was, mid, names, tops, io, before, beforeNames);
      }
      restored := Relink(before, beforeNames, io.restored, from, gens);
      ghost var after := dir;
      if restored && Whole(check, was) {
        RestoredExactly(check, was, mid, after, g, names, tops, io, before, beforeNames);
      }
      var _ := Discard(g, io.discard, from, gens);
      if restored && (io.discard || Linked(was) != Some(g)) {
        DiscardKeeps(check, after, dir, g);
      }
    }

    /** The bundle in its directory put in force: swapped in and reloaded, or what was linked before put back. */
    method PutInForce(g: string, files: Files, loads: bool, io: Reads, ghost from: nat,
            ghost gens: set<Option<string>>) returns (outcome: Outcome)
      modifies `dir, `trace, `inForce, `faults, `ignored
      requires Sane() && inForce != Some(g)
      requires check(g, files) && IsDir(dir, g) && dir[Gen(g)].files == files
      ensures faults >= old(faults) && ignored >= old(ignored)
      ensures outcome == if faults > old(faults) then Failed else if loads then Taken else Refused
      ensures outcome == Taken && ignored == old(ignored) ==> Tmp !in dir && forall h | Gen(h) in dir :: h == g
      ensures outcome == Refused && ignored == old(ignored) && Gen(g) in dir ==> io.discard && Linked(dir) == Some(g)
      ensures Sane() && old(trace) <= trace
      ensures outcome == Taken ==>
        && inForce == Some(g) == Linked(dir)
        && IsDir(dir, g) && dir[Gen(g)].files == files && Whole(check, dir)
      ensures outcome != Taken ==> inForce == old(inForce)
      ensures outcome == Refused && old(Whole(check, dir)) && (io.discard || old(Linked(dir)) != Some(g)) ==>
        (Whole(check, dir) && Linked(dir) == old(Linked(dir)) <==> Restores(old(dir), Tops(files), io))
      ensures old(Safe(from, gens)) && Some(g) in gens && io.discard && Restores(old(dir), Tops(files), io) ==>
        Safe(from, gens)
    {
      ghost var was, tops := dir, Tops(files);
      var names := TopNames(files);
      assert Finds(check, was, Some(g), names, io.relinked);
      var swapped, before, beforeNames := Swap(g, names, io, tops, from, gens);
      if !swapped {
        var _ := Discard(g, io.discard, from, gens);
        return Failed;
      }
      RelinkedIsWhole(check, was, dir, Some(g), names, io.relinked);
      if !loads {
        var restored := PutBack(g, names, before, beforeNames, io, was, tops, from, gens);
        return if restored then Refused else Failed;
      }
      inForce := Some(g);
      var _ := RemoveOtherGenerations(g, from, gens);
      outcome := Taken;
    }

    /**
     * apply: a bundle written, checked, and put in force. accepted says whether the check before the swap takes it, and
     * loads whether the reload does.
     */
    method Apply(g: string, files: Files, accepted: bool, loads: bool, io: Reads) returns (outcome: Outcome)
      modifies this
      requires Sane() && inForce != Some(g)
      ensures faults >= old(faults) && ignored >= old(ignored)
      ensures outcome ==
        if faults > old(faults) then Failed else if check(g, files) && accepted && loads then Taken else Refused
      ensures Sane() && old(trace) <= trace
      ensures old(Valid()) && ReadsEnough(old(dir), old(inForce), g, files, io) ==>
        Valid() && AllowedFrom(check, trace, |old(trace)| - 1, {old(Linked(dir)), old(inForce), Some(g)})
      ensures outcome == Taken ==>
        && Valid()
        && inForce == Some(g) == Linked(dir) && IsDir(dir, g) && dir[Gen(g)].files == files
      ensures outcome != Taken ==> inForce == old(inForce)
      ensures seen == old(seen)
      ensures
        && outcome == Refused && old(Valid() && inForce == Linked(dir))
        && ReadsEnough(old(dir), old(inForce), g, files, io)
        ==> Linked(dir) == old(Linked(dir))
      ensures !check(g, files) ==> outcome == Refused && dir == old(dir)
      ensures outcome == Taken && ignored == old(ignored) ==> Tmp !in dir && forall h | Gen(h) in dir :: h == g
      ensures
        && outcome == Refused && check(g, files) && ignored == old(ignored) && Gen(g) in dir
        ==> io.discard && Linked(dir) == Some(g)
    {
      ghost var from, gens := |trace| - 1, {Linked(dir), inForce, Some(g)};
      if !check(g, files) {
        return Refused;
      }
      var ok := Prepare(g, files, io, from, gens);
      if !ok {
        return Failed;
      }
      if !accepted {
        var _ := Discard(g, io.discard, from, gens);
        return Refused;
      }
      outcome := PutInForce(g, files, loads, io, from, gens);
    }

    /**
     * syncOnce: what was fetched applied, unless it is what was seen last or what is in force. One that could not be
     * written is not taken for seen, and so is tried again; one refused is, and is not.
     */
    method SyncOnce(b: Option<Bundle>, accepted: bool, loads: bool, io: Reads) returns (same: bool, ok: bool)
      modifies this
      requires Sane()
      ensures faults >= old(faults) && (ok <==> faults == old(faults))
      ensures Sane() && old(trace) <= trace
      ensures same <==> b.None? || Some(b.value.generation) in {old(seen), old(inForce)}
      ensures same ==> ok && dir == old(dir) && trace == old(trace) && inForce == old(inForce) && seen == old(seen)
      ensures !same && old(Valid()) && ReadsEnough(old(dir), old(inForce), b.value.generation, b.value.files, io) ==>
        && Valid()
        && AllowedFrom(check, trace, |old(trace)| - 1, {old(Linked(dir)), old(inForce), Some(b.value.generation)})
      ensures !same ==>
        var g, files := b.value.generation, b.value.files;
        (inForce == Some(g) <==> ok && check(g, files) && accepted && loads)
      ensures !same && ok ==> seen == Some(b.value.generation)
      ensures !same && !ok ==> seen == old(seen) && inForce == old(inForce)
      ensures inForce != old(inForce) ==>
        && b.Some? && ok && inForce == Some(b.value.generation) == Linked(dir) && Valid()
        && check(b.value.generation, b.value.files) && accepted && loads
        && IsDir(dir, b.value.generation) && dir[Gen(b.value.generation)].files == b.value.files
    {
      if b.None? || Some(b.value.generation) == seen || Some(b.value.generation) == inForce {
        return true, true;
      }
      var outcome := Apply(b.value.generation, b.value.files, accepted, loads, io);
      if outcome == Failed {
        return false, false;
      }
      seen := Some(b.value.generation);
      return false, true;
    }
  }
}
