/**
 * The names of discovered targets (internal/allocator/expand.go: discoveredName, escapeAddress, hashedAddress). A
 * string is its bytes, a char for each.
 */
module Naming {
  import opened Common
  import Utf8

  const MAX_ESCAPED: nat := 128
  const READABLE_PREFIX: nat := 48

  predicate Plain(c: char) {
    'a' <= c <= 'z' || '0' <= c <= '9'
  }

  predicate Upper(c: char) {
    'A' <= c <= 'Z'
  }

  predicate Escapable(c: char) {
    c == ':' || c == '-' || c == '[' || c == ']'
  }

  predicate Takes(c: char) {
    Plain(c) || c == '.' || Escapable(c)
  }

  /** A byte in a name: itself, _ for a dot, and _ and its upper-case hex for the others. */
  function EscapeChar(c: char): (s: string)
    requires Takes(c)
    ensures 1 <= |s| <= 3
  {
    if Plain(c) then [c] else if c == '.' then "_"
    else if c == ':' then "_3A" else if c == '-' then "_2D" else if c == '[' then "_5B" else "_5D"
  }

  function HexDigit(n: nat): char
    requires n < 16
  {
    if n < 10 then ('0' as int + n) as char else ('A' as int + n - 10) as char
  }

  /** A byte that is escaped is _ and the two digits of its upper-case hex. */
  lemma EscapeIsHex(c: char)
    requires Escapable(c)
    ensures EscapeChar(c) == ['_', HexDigit(c as int / 16), HexDigit(c as int % 16)]
  {
  }

  predicate TakesAll(a: string) {
    forall i | 0 <= i < |a| :: Takes(a[i])
  }

  function Escape(a: string): string
    requires TakesAll(a)
  {
    if a == [] then "" else EscapeChar(a[0]) + Escape(a[1..])
  }

  function Escaped(a: string): Option<string> {
    if TakesAll(a) && |Escape(a)| <= MAX_ESCAPED then Some(Escape(a)) else None
  }

  method EscapeAddress(a: string) returns (r: Option<string>)
    ensures r == Escaped(a)
  {
    var b := "";
    for i := 0 to |a|
      invariant TakesAll(a[..i]) && |b| <= MAX_ESCAPED
      invariant TakesAll(a) ==> b + Escape(a[i..]) == Escape(a)
    {
      var c := a[i];
      if TakesAll(a) {
        EscapeNext(a, i);
        Join(b, EscapeChar(c), Escape(a[i + 1..]));
      }
      if Plain(c) {
        b := b + [c];
      } else if c == '.' {
        b := b + "_";
      } else if c == ':' || c == '-' || c == '[' || c == ']' {
        b := b + EscapeChar(c);
      } else {
        return None;
      }
      if |b| > MAX_ESCAPED {
        return None;
      }
    }
    assert a[..|a|] == a && a[|a|..] == [] && b + "" == b;
    r := Some(b);
  }

  lemma EscapeNext(a: string, i: nat)
    requires i < |a| && TakesAll(a)
    ensures Escape(a[i..]) == EscapeChar(a[i]) + Escape(a[i + 1..])
  {
    assert a[i..][1..] == a[i + 1..];
  }

  lemma Join(b: string, x: string, y: string)
    ensures b + (x + y) == (b + x) + y
  {
  }

  // ---- read back ----

  /** The byte an escape is of: none of the four without one. */
  function HexOf(d: char, u: char): Option<char> {
    if d == '3' && u == 'A' then Some(':') else if d == '2' && u == 'D' then Some('-')
    else if d == '5' && u == 'B' then Some('[') else if d == '5' && u == 'D' then Some(']') else None
  }

  /** From left to right: _ before a digit and an upper-case letter is an escape, any other a dot. */
  function Unescape(s: string): string {
    if s == [] then ""
    else if s[0] != '_' then [s[0]] + Unescape(s[1..])
    else if |s| >= 3 && Upper(s[2]) && HexOf(s[1], s[2]).Some? then [HexOf(s[1], s[2]).value] + Unescape(s[3..])
    else ['.'] + Unescape(s[1..])
  }

  /**
   * How an escaped address may begin: no upper-case letter is first, nor second but after a digit that begins nothing.
   */
  ghost predicate Begins(s: string) {
    (|s| >= 1 ==> !Upper(s[0])) && (|s| >= 2 ==> !Upper(s[1]))
  }

  lemma {:induction false} EscapeBegins(a: string)
    requires TakesAll(a)
    ensures Begins(Escape(a))
    decreases |a|
  {
    if a != [] {
      EscapeBegins(a[1..]);
    }
  }

  /** Reading back gives the address: escaping loses nothing. */
  lemma {:induction false} UnescapeEscape(a: string)
    requires TakesAll(a)
    ensures Unescape(Escape(a)) == a
    decreases |a|
  {
    if a != [] {
      UnescapeEscape(a[1..]);
      EscapeBegins(a[1..]);
      var c, rest, s := a[0], Escape(a[1..]), Escape(a);
      assert a == [c] + a[1..];
      if Escapable(c) {
        assert s[1] == EscapeChar(c)[1] && s[2] == EscapeChar(c)[2] && s[3..] == rest;
      } else {
        assert s[1..] == rest;
      }
    }
  }

  lemma EscapeInjective(a: string, b: string)
    requires Escaped(a).Some? && Escaped(a) == Escaped(b)
    ensures a == b
  {
    UnescapeEscape(a);
    UnescapeEscape(b);
  }

  // ---- hashed addresses ----

  // 16 lower-case hex digits of the address's SHA-256.
  type Digest = string -> string

  ghost predicate ValidDigest(digest: Digest) {
    forall a :: |digest(a)| == 16
  }

  function ReadableChar(c: char): char {
    if Plain(c) then c else if Upper(c) then c - 'A' + 'a' else '_'
  }

  /** The bytes of the character at i of a text in bytes, 1 for a byte that is of none. */
  function Step(a: string, i: nat): (w: nat)
    requires i < |a|
    ensures 1 <= w <= |a| - i
  {
    var w := Utf8.Width(seq(|a| - i, k requires 0 <= k < |a| - i => a[i + k] as int));
    if w == 0 then 1 else w
  }

  /** Each character from i on: a letter or digit lower-cased, any other _, of however many bytes it is. */
  function Readable(a: string, i: nat): string
    requires i <= |a|
    decreases |a| - i
  {
    if i == |a| then "" else [if Step(a, i) == 1 then ReadableChar(a[i]) else '_'] + Readable(a, i + Step(a, i))
  }

  function ReadablePrefix(a: string): string {
    Readable(a[..if |a| < READABLE_PREFIX then |a| else READABLE_PREFIX], 0)
  }

  function Hashed(digest: Digest, a: string): string {
    ReadablePrefix(a) + "_X" + digest(a)
  }

  method HashedAddress(digest: Digest, a: string) returns (s: string)
    ensures s == Hashed(digest, a)
  {
    var prefix := a[..if |a| < READABLE_PREFIX then |a| else READABLE_PREFIX];
    s := "";
    var i := 0;
    while i < |prefix|
      invariant i <= |prefix| && s + Readable(prefix, i) == Readable(prefix, 0)
    {
      var w := Step(prefix, i);
      var c := if w == 1 then ReadableChar(prefix[i]) else '_';
      Join(s, [c], Readable(prefix, i + w));
      s := s + [c];
      i := i + w;
    }
    assert s + "" == s;
    s := s + "_X" + digest(a);
  }

  /** An upper-case letter right after a _. */
  ghost predicate Marked(s: string) {
    exists i :: 0 < i < |s| && s[i - 1] == '_' && Upper(s[i])
  }

  lemma {:induction false} EscapedIsUnmarked(a: string)
    requires TakesAll(a)
    ensures !Marked(Escape(a))
    decreases |a|
  {
    if a != [] {
      EscapedIsUnmarked(a[1..]);
      EscapeBegins(a[1..]);
      var e, rest, s := EscapeChar(a[0]), Escape(a[1..]), Escape(a);
      forall i | 0 < i < |s| && s[i - 1] == '_' ensures !Upper(s[i]) {
        if i > |e| {
          assert s[i] == rest[i - |e|] && s[i - 1] == rest[i - |e| - 1];
        }
      }
    }
  }

  lemma HashedIsMarked(digest: Digest, a: string)
    ensures Marked(Hashed(digest, a))
  {
    var k := |ReadablePrefix(a)|;
    assert Hashed(digest, a)[k] == '_' && Hashed(digest, a)[k + 1] == 'X';
    assert 0 < k + 1 < |Hashed(digest, a)|;
  }

  lemma HashedEqual(digest: Digest, a: string, b: string)
    requires ValidDigest(digest)
    ensures Hashed(digest, a) == Hashed(digest, b) <==> digest(a) == digest(b) && ReadablePrefix(a) == ReadablePrefix(b)
  {
    var h, g := Hashed(digest, a), Hashed(digest, b);
    assert h[|h| - 16..] == digest(a) && g[|g| - 16..] == digest(b);
    assert h[..|h| - 18] == ReadablePrefix(a) && g[..|g| - 18] == ReadablePrefix(b);
  }

  // ---- names ----

  function AddressName(digest: Digest, a: string): string {
    if Escaped(a).Some? then Escaped(a).value else Hashed(digest, a)
  }

  function DiscoveredName(digest: Digest, entry: string, a: string): string {
    entry + "_" + AddressName(digest, a)
  }

  method NameOf(digest: Digest, entry: string, a: string) returns (name: string)
    ensures name == DiscoveredName(digest, entry, a)
  {
    var escaped := EscapeAddress(a);
    if escaped.Some? {
      return entry + "_" + escaped.value;
    }
    var hashed := HashedAddress(digest, a);
    name := entry + "_" + hashed;
  }

  predicate BeginsWith(b: string, a: string) {
    |a| + 1 <= |b| && b[..|a| + 1] == a + "_"
  }

  /** The entries a configuration may have: each of its own name, none of which begins with another and _. */
  ghost predicate EntriesApart(names: seq<string>) {
    forall i, j | 0 <= i < |names| && 0 <= j < |names| && i != j ::
      names[i] != names[j] && !BeginsWith(names[j], names[i])
  }

  /** The check of the entries at load. */
  method CheckEntries(names: seq<string>) returns (ok: bool)
    ensures ok <==> EntriesApart(names)
  {
    var seen: set<string> := {};
    for i := 0 to |names|
      invariant forall n :: n in seen <==> n in names[..i]
      invariant forall a, b | 0 <= a < i && 0 <= b < i && a != b :: names[a] != names[b]
    {
      if names[i] in seen {
        var j :| 0 <= j < i && names[..i][j] == names[i];
        assert names[j] == names[i];
        return false;
      }
      seen := seen + {names[i]};
    }
    for i := 0 to |names|
      invariant forall a, b | 0 <= a < i && 0 <= b < |names| && a != b :: !BeginsWith(names[b], names[a])
    {
      for j := 0 to |names|
        invariant forall b | 0 <= b < j && i != b :: !BeginsWith(names[b], names[i])
      {
        if i != j && BeginsWith(names[j], names[i]) {
          return false;
        }
      }
    }
    ok := true;
  }

  lemma ShorterBegins(a: string, b: string, x: string, y: string)
    requires a + "_" + x == b + "_" + y && |a| < |b|
    ensures BeginsWith(b, a)
  {
    var s := a + "_" + x;
    assert b[..|a| + 1] == s[..|a| + 1] == a + "_";
  }

  /** Entry and address are read off a name: the entry because no other's name begins it. */
  lemma EntryOfName(names: seq<string>, i: nat, j: nat, x: string, y: string)
    requires EntriesApart(names) && i < |names| && j < |names|
    requires names[i] + "_" + x == names[j] + "_" + y
    ensures i == j && x == y
  {
    var a, b := names[i], names[j];
    if |a| < |b| {
      ShorterBegins(a, b, x, y);
    } else if |b| < |a| {
      ShorterBegins(b, a, y, x);
    } else {
      var s := a + "_" + x;
      assert a == s[..|a|] == b;
      assert x == s[|a| + 1..] == y;
    }
  }

  /** Both are addresses escaping does not take, that look alike at the start and share the digits of their digests. */
  ghost predicate Collide(digest: Digest, a: string, b: string) {
    Escaped(a).None? && Escaped(b).None? && digest(a) == digest(b) && ReadablePrefix(a) == ReadablePrefix(b)
  }

  lemma AddressNamesApart(digest: Digest, a: string, b: string)
    requires ValidDigest(digest)
    ensures AddressName(digest, a) == AddressName(digest, b) <==> a == b || Collide(digest, a, b)
  {
    if Escaped(a).Some? {
      EscapedIsUnmarked(a);
      if Escaped(b).Some? {
        if Escaped(a) == Escaped(b) {
          EscapeInjective(a, b);
        }
      } else {
        HashedIsMarked(digest, b);
      }
    } else if Escaped(b).Some? {
      EscapedIsUnmarked(b);
      HashedIsMarked(digest, a);
    } else {
      HashedEqual(digest, a, b);
    }
  }

  /**
   * Two targets share a name exactly when they are of one entry and one address, or of one entry and two long or odd
   * addresses whose digests collide.
   */
  lemma NamesApart(digest: Digest, names: seq<string>, i: nat, a: string, j: nat, b: string)
    requires ValidDigest(digest) && EntriesApart(names) && i < |names| && j < |names|
    ensures DiscoveredName(digest, names[i], a) == DiscoveredName(digest, names[j], b) <==>
            i == j && (a == b || Collide(digest, a, b))
  {
    AddressNamesApart(digest, a, b);
    var x, y := AddressName(digest, a), AddressName(digest, b);
    if names[i] + "_" + x == names[j] + "_" + y {
      EntryOfName(names, i, j, x, y);
    }
  }
}
