/** What a bundle's generation is the digest of, and what its files may be named (internal/allocapi/allocapi.go). */
module Digest {
  import opened Common
  import opened Ordering

  type Files = map<string, string>

  // SHA-256, of which the generation is the first half in hex.
  type Hash = string -> string

  /** A number in size bytes, the highest first. */
  function Bytes(n: nat, size: nat): (s: string)
    ensures |s| == size
  {
    if size == 0 then "" else Bytes(n / 256, size - 1) + [(n % 256) as char]
  }

  lemma {:induction false} BytesInjective(m: nat, n: nat, size: nat)
    requires m < Pow256(size) && n < Pow256(size) && Bytes(m, size) == Bytes(n, size)
    ensures m == n
  {
    if size > 0 {
      var a, b := Bytes(m, size), Bytes(n, size);
      assert a[..size - 1] == Bytes(m / 256, size - 1) && b[..size - 1] == Bytes(n / 256, size - 1);
      assert a[size - 1] == (m % 256) as char && b[size - 1] == (n % 256) as char;
      BytesInjective(m / 256, n / 256, size - 1);
    }
  }

  /** A part of the input: its length in 8 bytes, and itself. */
  function Part(s: string): string {
    Bytes(|s|, 8) + s
  }

  /** The lengths are of 64 bits. */
  predicate Fits(s: string) {
    |s| < Pow256(8)
  }

  ghost predicate AllFit(files: Files) {
    forall n | n in files :: Fits(n) && Fits(files[n])
  }

  /** The names and the contents, each written as write says. */
  function Each(write: string -> string, files: Files, names: seq<string>): string
    requires forall n | n in names :: n in files
  {
    if names == [] then "" else write(names[0]) + (write(files[names[0]]) + Each(write, files, names[1..]))
  }

  function Encode(files: Files, names: seq<string>): string
    requires forall n | n in names :: n in files
  {
    Each(Part, files, names)
  }

  ghost function Input(files: Files): string {
    assert forall n | n in SortedNames(files.Keys) :: n in Elements(SortedNames(files.Keys));
    Encode(files, SortedNames(files.Keys))
  }

  lemma PartsSplit(s: string, t: string, x: string, y: string)
    requires Fits(s) && Fits(t) && Part(s) + x == Part(t) + y
    ensures s == t && x == y
  {
    var all := Part(s) + x;
    assert all[..8] == Bytes(|s|, 8) && all[..8] == Bytes(|t|, 8);
    BytesInjective(|s|, |t|, 8);
    assert all[8..8 + |s|] == s && all[8..8 + |s|] == t;
    assert all[8 + |s|..] == x && all[8 + |s|..] == y;
  }

  lemma {:induction false} EncodeInjective(a: Files, b: Files, ns: seq<string>, ms: seq<string>)
    requires (forall n | n in ns :: n in a) && (forall n | n in ms :: n in b)
    requires AllFit(a) && AllFit(b) && Encode(a, ns) == Encode(b, ms)
    ensures ns == ms && forall n | n in ns :: a[n] == b[n]
    decreases |ns|
  {
    if ns != [] && ms != [] {
      PartsSplit(ns[0], ms[0], Part(a[ns[0]]) + Encode(a, ns[1..]), Part(b[ms[0]]) + Encode(b, ms[1..]));
      PartsSplit(a[ns[0]], b[ms[0]], Encode(a, ns[1..]), Encode(b, ms[1..]));
      EncodeInjective(a, b, ns[1..], ms[1..]);
    }
  }

  /** Bundles of other files have other input: no file's bytes can pass for another's, or for a name. */
  lemma InputInjective(a: Files, b: Files)
    requires AllFit(a) && AllFit(b) && Input(a) == Input(b)
    ensures a == b
  {
    var ns := InputIs(a);
    var ms := InputIs(b);
    EncodeInjective(a, b, ns, ms);
    SameFiles(a, b, ns);
  }

  lemma SameFiles(a: Files, b: Files, ns: seq<string>)
    requires forall n :: (n in ns <==> n in a) && (n in ns <==> n in b)
    requires forall n | n in ns :: a[n] == b[n]
    ensures a == b
  {
    assert a.Keys == b.Keys;
  }

  lemma InputIs(a: Files) returns (ns: seq<string>)
    ensures (forall n :: n in ns <==> n in a) && Input(a) == Encode(a, ns)
  {
    ns := SortedNames(a.Keys);
    assert forall n :: n in ns <==> n in Elements(ns);
  }

  /** With a hash that does not collide, bundles share a generation exactly when they hold the same. */
  lemma GenerationsApart(hash: Hash, a: Files, b: Files)
    requires AllFit(a) && AllFit(b) && forall x, y :: hash(x) == hash(y) ==> x == y
    ensures hash(Input(a)) == hash(Input(b)) <==> a == b
  {
    if Input(a) == Input(b) {
      InputInjective(a, b);
    }
  }

  /** The digest of the names in order and their contents, part after part. */
  method Generation(hash: Hash, files: Files) returns (g: string)
    ensures g == hash(Input(files))
  {
    var names := Names(files);
    var h := WriteEach(Part, files, names);
    g := hash(h);
  }

  method WriteEach(write: string -> string, files: Files, names: seq<string>) returns (h: string)
    requires forall n | n in names :: n in files
    ensures h == Each(write, files, names)
  {
    h := "";
    for i := 0 to |names|
      invariant h + Each(write, files, names[i..]) == Each(write, files, names)
    {
      assert names[i..][1..] == names[i + 1..];
      JoinThree(h, write(names[i]), write(files[names[i]]), Each(write, files, names[i + 1..]));
      h := h + write(names[i]);
      h := h + write(files[names[i]]);
    }
    assert names[|names|..] == [] && h + "" == h;
  }

  lemma JoinThree(h: string, p: string, q: string, rest: string)
    ensures h + (p + (q + rest)) == (h + p + q) + rest
  {
  }

  method Names(files: Files) returns (names: seq<string>)
    ensures names == SortedNames(files.Keys) && forall n | n in names :: n in files
  {
    var listed: seq<string> := [];
    var todo := files.Keys;
    while todo != {}
      invariant todo <= files.Keys && Distinct(listed)
      invariant forall n :: n in listed <==> n in files && n !in todo
      decreases todo
    {
      var n :| n in todo;
      todo := todo - {n};
      listed := listed + [n];
    }
    assert Elements(listed) == files.Keys;
    NamesAreOrdered(files.Keys);
    SortBySorts(Less, listed);
    names := SortBy(Less, listed);
    SortedUnique(Less, names, SortedNames(files.Keys), files.Keys);
    assert forall n | n in names :: n in Elements(names);
  }

  // ---- the places of the files ----

  const CONFIG := "config.yaml"

  /** The elements of a path. */
  function Split(s: string): (es: seq<string>)
    ensures |es| > 0
  {
    if s == "" then [""]
    else if s[0] == '/' then [""] + Split(s[1..])
    else
      var rest := Split(s[1..]);
      [[s[0]] + rest[0]] + rest[1..]
  }

  function JoinPath(es: seq<string>): string
    requires |es| > 0
  {
    if |es| == 1 then es[0] else es[0] + "/" + JoinPath(es[1..])
  }

  lemma {:induction false} SplitJoins(s: string)
    ensures JoinPath(Split(s)) == s
    decreases |s|
  {
    if s != "" {
      SplitJoins(s[1..]);
      var rest := Split(s[1..]);
      if s[0] == '/' {
        assert Split(s)[1..] == rest;
        assert "" + "/" + s[1..] == s;
      } else {
        assert Split(s)[1..] == rest[1..];
        assert [s[0]] + s[1..] == s;
      }
    }
  }

  /** Nothing that names the directory itself, or the one above it. */
  predicate IsPlain(e: string) {
    e != "" && e != "." && e != ".."
  }

  /** A path that is relative and clean: no element is empty, . or .., and there is no backslash or NUL. */
  predicate IsClean(s: string) {
    '\\' !in s && '\0' !in s && forall e | e in Split(s) :: IsPlain(e)
  }

  /** Where the elements lead from a directory, given by its own from the root of the file system. */
  function Resolve(at: seq<string>, es: seq<string>): seq<string>
    decreases |es|
  {
    if es == [] then at
    else if es[0] == "" || es[0] == "." then Resolve(at, es[1..])
    else if es[0] == ".." then Resolve(if at == [] then at else at[..|at| - 1], es[1..])
    else Resolve(at + [es[0]], es[1..])
  }

  lemma {:induction false} PlainResolves(at: seq<string>, es: seq<string>)
    requires forall e | e in es :: IsPlain(e)
    ensures Resolve(at, es) == at + es
    decreases |es|
  {
    if es == [] {
      assert at + es == at;
    } else {
      assert IsPlain(es[0]);
      PlainResolves(at + [es[0]], es[1..]);
      assert (at + [es[0]]) + es[1..] == at + es;
    }
  }

  /** b is under a, as a directory. */
  predicate Under(a: string, b: string) {
    |a| < |b| && b[..|a|] == a && b[|a|] == '/'
  }

  /** That is so by whole elements. */
  lemma {:induction false} UnderIsPrefix(a: string, b: string)
    ensures Under(a, b) <==> Split(a) < Split(b)
    decreases |a|
  {
    if a == "" {
      assert b[..0] == a;
      if b != "" {
        assert Split(b)[0] == "" <==> b[0] == '/';
      }
    } else if b != "" {
      UnderIsPrefix(a[1..], b[1..]);
      UnderNext(a, b);
      PrefixNext(a, b);
    }
  }

  lemma UnderNext(a: string, b: string)
    requires a != "" && b != ""
    ensures Under(a, b) <==> a[0] == b[0] && Under(a[1..], b[1..])
  {
    if |a| < |b| && a[0] == b[0] {
      assert b[..|a|] == [b[0]] + b[1..][..|a| - 1] && a == [a[0]] + a[1..];
      if b[..|a|] == a {
        assert b[1..][..|a| - 1] == b[..|a|][1..] == a[1..];
      }
    }
  }

  lemma PrefixNext(a: string, b: string)
    requires a != "" && b != ""
    ensures Split(a) < Split(b) <==> a[0] == b[0] && Split(a[1..]) < Split(b[1..])
  {
    var es, fs := Split(a[1..]), Split(b[1..]);
    if a[0] == '/' || b[0] == '/' {
      assert Split(a)[0] == Split(b)[0] ==> a[0] == b[0];
      assert a[0] == b[0] ==> Split(a)[1..] == es && Split(b)[1..] == fs;
    } else {
      assert Split(a)[1..] == es[1..] && Split(b)[1..] == fs[1..];
      assert Split(a)[0] == Split(b)[0] <==> a[0] == b[0] && es[0] == fs[0] by {
        assert Split(a)[0][0] == a[0] && Split(b)[0][0] == b[0];
        assert Split(a)[0][1..] == es[0] && Split(b)[0][1..] == fs[0];
      }
    }
  }

  ghost predicate Checked(files: Files) {
    && CONFIG in files
    && (forall n | n in files :: IsClean(n))
    && forall a, b | a in files && b in files :: !Under(a, b)
  }

  /**
   * Whatever directory checked files are written into, each has a place of its own below it, none of which is a
   * directory of another's.
   */
  lemma CheckedFilesApart(files: Files, root: seq<string>, a: string, b: string)
    requires Checked(files) && a in files && b in files
    ensures var at, bt := Resolve(root, Split(a)), Resolve(root, Split(b));
            root < at && (at <= bt ==> a == b)
  {
    PlainResolves(root, Split(a));
    PlainResolves(root, Split(b));
    var es, fs := Split(a), Split(b);
    if root + es <= root + fs {
      assert es == (root + es)[|root|..] && fs == (root + fs)[|root|..];
      assert (root + fs)[..|root + es|] == root + es;
      assert fs[..|es|] == (root + fs)[..|root + es|][|root|..] == es;
      OnePlace(a, b);
    }
  }

  lemma OnePlace(a: string, b: string)
    requires Split(a) <= Split(b) && !Under(a, b)
    ensures a == b
  {
    UnderIsPrefix(a, b);
    assert Split(a) == Split(b);
    SplitJoins(a);
    SplitJoins(b);
  }

  lemma SplitNext(c: char, s: string, h: string, t: seq<string>)
    requires c != '/' && Split(s) == [h] + t
    ensures Split([c] + s) == [[c] + h] + t
  {
    assert ([c] + s)[1..] == s;
    assert ([h] + t)[1..] == t;
  }

  lemma SplitUp()
    ensures Split("../x") == ["..", "x"]
  {
    assert "x" == ['x'] + "" && "/x" == ['/'] + "x" && "./x" == ['.'] + "/x" && "../x" == ['.'] + "./x";
    assert Split("") == [""] + [];
    SplitNext('x', "", "", []);
    assert Split("x") == ["x"];
    assert "/x"[1..] == "x";
    assert Split("/x") == [""] + ["x"];
    SplitNext('.', "/x", "", ["x"]);
    assert ['.'] + "" == ".";
    SplitNext('.', "./x", ".", ["x"]);
    assert ['.'] + "." == ".." && [".."] + ["x"] == ["..", "x"];
  }

  /** A path that is not clean can lead out of the directory. */
  lemma UncleanLeaves(root: seq<string>, d: string)
    ensures !IsClean("../x") && Resolve(root + [d], Split("../x")) == root + ["x"]
  {
    SplitUp();
    assert [".." , "x"][0] in Split("../x");
    assert (root + [d])[..|root|] == root;
    PlainResolves(root, ["x"]);
    assert ["..", "x"][1..] == ["x"];
  }

  /** The check of a bundle's files. */
  method CheckFiles(files: Files) returns (ok: bool)
    ensures ok <==> Checked(files)
  {
    if CONFIG !in files {
      return false;
    }
    var todo := files.Keys;
    while todo != {}
      invariant todo <= files.Keys
      invariant forall n | n in files && n !in todo :: IsClean(n)
      decreases todo
    {
      var n :| n in todo;
      todo := todo - {n};
      if !IsClean(n) {
        return false;
      }
    }
    ok := NoFileIsADirectory(files);
  }

  /** No file is a directory of another, so a directory can hold them all. */
  method NoFileIsADirectory(files: Files) returns (ok: bool)
    ensures ok <==> forall a, b | a in files && b in files :: !Under(a, b)
  {
    var todo := files.Keys;
    while todo != {}
      invariant todo <= files.Keys
      invariant forall a, b | a in files && b in files && b !in todo :: !Under(a, b)
      decreases todo
    {
      var b :| b in todo;
      todo := todo - {b};
      for i := 0 to |b|
        invariant forall a | a in files && |a| < i :: !Under(a, b)
      {
        if b[i] == '/' && b[..i] in files {
          assert Under(b[..i], b);
          return false;
        }
      }
    }
    ok := true;
  }
}
