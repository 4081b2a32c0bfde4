/** UTF-8 as Go's unicode/utf8 decodes it, and what strings.ToValidUTF8 makes of text with bytes that are not of it. */
module Utf8 {
  type Byte = x: int | 0 <= x < 256

  /** U+FFFD. */
  const REPLACEMENT: seq<Byte> := [0xEF, 0xBF, 0xBD]

  predicate Continues(b: int) {
    0x80 <= b <= 0xBF
  }

  /** The least and the greatest second byte after a first: no overlong form, no surrogate, nothing past U+10FFFF. */
  predicate Second(first: int, b: int) {
    if first == 0xE0 then 0xA0 <= b <= 0xBF
    else if first == 0xED then 0x80 <= b <= 0x9F
    else if first == 0xF0 then 0x90 <= b <= 0xBF
    else if first == 0xF4 then 0x80 <= b <= 0x8F
    else Continues(b)
  }

  /** The bytes of the character that begins the text; 0 when none does. */
  function Width(s: seq<int>): (w: nat)
    requires s != []
    ensures w <= |s|
  {
    var b := s[0];
    if 0 <= b < 0x80 then 1
    else if 0xC2 <= b <= 0xDF then if |s| >= 2 && Continues(s[1]) then 2 else 0
    else if 0xE0 <= b <= 0xEF then if |s| >= 3 && Second(b, s[1]) && Continues(s[2]) then 3 else 0
    else if 0xF0 <= b <= 0xF4 then
      if |s| >= 4 && Second(b, s[1]) && Continues(s[2]) && Continues(s[3]) then 4 else 0
    else 0
  }

  /** A Unicode character: up to U+10FFFF, and no surrogate. */
  predicate IsCharacter(c: nat) {
    c <= 0x10FFFF && !(0xD800 <= c <= 0xDFFF)
  }

  /** Its UTF-8, by section 3 of RFC 3629: 7, 11, 16 or 21 bits, six to a byte after the first. */
  function Encode(c: nat): seq<Byte>
    requires c <= 0x10FFFF
  {
    if c < 0x80 then [c]
    else if c < 0x800 then [0xC0 + c / 64, 0x80 + c % 64]
    else if c < 0x1_0000 then [0xE0 + c / 4096, 0x80 + c / 64 % 64, 0x80 + c % 64]
    else [0xF0 + c / 262144, 0x80 + c / 4096 % 64, 0x80 + c / 64 % 64, 0x80 + c % 64]
  }

  lemma EncodedWidth(c: nat)
    requires IsCharacter(c)
    ensures Width(Encode(c)) == |Encode(c)|
  {
  }

  /** The six bits of a byte after the first. */
  function Bits(b: int): int {
    b - 0x80
  }

  lemma TwoBytes(a: Byte, b: Byte) returns (c: nat)
    requires 0xC2 <= a <= 0xDF && Continues(b)
    ensures IsCharacter(c) && Encode(c) == [a, b]
  {
    var first: int := a;
    c := (first - 0xC0) * 64 + Bits(b);
  }

  lemma ThreeBytes(a: Byte, b: Byte, d: Byte) returns (c: nat)
    requires 0xE0 <= a <= 0xEF && Second(a, b) && Continues(d)
    ensures IsCharacter(c) && Encode(c) == [a, b, d]
  {
    var first: int := a;
    var high := (first - 0xE0) * 64 + Bits(b);
    c := high * 64 + Bits(d);
    assert c / 64 == high && c % 64 == Bits(d) && high / 64 == first - 0xE0 && high % 64 == Bits(b);
    assert c / 4096 == high / 64;
  }

  lemma FourBytes(a: Byte, b: Byte, d: Byte, e: Byte) returns (c: nat)
    requires 0xF0 <= a <= 0xF4 && Second(a, b) && Continues(d) && Continues(e)
    ensures IsCharacter(c) && Encode(c) == [a, b, d, e]
  {
    var first: int := a;
    var top := (first - 0xF0) * 64 + Bits(b);
    var high := top * 64 + Bits(d);
    c := high * 64 + Bits(e);
    assert c / 64 == high && c % 64 == Bits(e) && high / 64 == top && high % 64 == Bits(d);
    assert top / 64 == first - 0xF0 && top % 64 == Bits(b);
    assert c / 4096 == top && c / 262144 == top / 64;
  }

  lemma DecodeWidth(s: seq<Byte>) returns (c: nat)
    requires s != [] && Width(s) > 0
    ensures IsCharacter(c) && s[..Width(s)] == Encode(c)
  {
    var w := Width(s);
    if w == 1 {
      c := s[0];
    } else if w == 2 {
      c := TwoBytes(s[0], s[1]);
    } else if w == 3 {
      c := ThreeBytes(s[0], s[1], s[2]);
    } else {
      c := FourBytes(s[0], s[1], s[2], s[3]);
    }
  }

  /** The bytes taken for a character at the front of a text are the UTF-8 of one, and none is missed. */
  lemma WidthExactly(s: seq<Byte>, w: nat)
    requires s != [] && 0 < w <= |s|
    ensures Width(s) == w <==> exists c: nat :: IsCharacter(c) && s[..w] == Encode(c)
  {
    if Width(s) == w {
      var c := DecodeWidth(s);
    }
    if c: nat :| IsCharacter(c) && s[..w] == Encode(c) {
      EncodedWidth(c);
      WidthOfPrefix(Encode(c), s[w..]);
      assert Encode(c)[..w] == Encode(c) && s == Encode(c) + s[w..];
    }
  }

  predicate IsText(s: seq<Byte>) {
    s == [] || (Width(s) > 0 && IsText(s[Width(s)..]))
  }

  /** bad says that the byte before was of no character, and so is replaced already. */
  function Replace(s: seq<Byte>, bad: bool): seq<Byte> {
    if s == [] then []
    else if Width(s) == 0 then (if bad then [] else REPLACEMENT) + Replace(s[1..], true)
    else s[..Width(s)] + Replace(s[Width(s)..], false)
  }

  /** strings.ToValidUTF8 with U+FFFD. */
  function ToText(s: seq<Byte>): seq<Byte> {
    Replace(s, false)
  }

  /** A character is one whatever comes after it. */
  lemma WidthOfPrefix(s: seq<int>, t: seq<int>)
    requires s != [] && Width(s) > 0
    ensures Width(s[..Width(s)] + t) == Width(s)
  {
    var w := Width(s);
    var u := s[..w] + t;
    assert forall k | 0 <= k < w :: u[k] == s[k];
  }

  lemma {:induction false} ReplacedIsText(s: seq<Byte>, bad: bool)
    ensures IsText(Replace(s, bad))
    decreases |s|
  {
    if s != [] {
      var w := Width(s);
      if w == 0 {
        ReplacedIsText(s[1..], true);
        var rest := Replace(s[1..], true);
        if bad {
          assert [] + rest == rest;
        } else {
          Joined(REPLACEMENT, rest);
        }
      } else {
        ReplacedIsText(s[w..], false);
        WidthOfPrefix(s, []);
        assert s[..w] + [] == s[..w];
        Joined(s[..w], Replace(s[w..], false));
      }
    }
  }

  /** A character and text are text. */
  lemma Joined(c: seq<Byte>, rest: seq<Byte>)
    requires c != [] && Width(c) == |c| && IsText(rest)
    ensures IsText(c + rest)
  {
    assert c[..|c|] == c;
    WidthOfPrefix(c, rest);
    assert (c + rest)[|c|..] == rest;
  }

  lemma {:induction false} TextIsKept(s: seq<Byte>)
    requires IsText(s)
    ensures Replace(s, false) == s
    decreases |s|
  {
    if s != [] {
      TextIsKept(s[Width(s)..]);
      assert s[..Width(s)] + s[Width(s)..] == s;
    }
  }

  /** What comes out is text, and is what went in exactly when that was text. */
  lemma ToTextIsText(s: seq<Byte>)
    ensures IsText(ToText(s)) && ToText(ToText(s)) == ToText(s)
    ensures ToText(s) == s <==> IsText(s)
  {
    ReplacedIsText(s, false);
    TextIsKept(ToText(s));
    if IsText(s) {
      TextIsKept(s);
    }
  }

  // ---- each byte read as one ----

  /** What the decoder's documentation says: each byte of no character is read as U+FFFD. */
  function PerByte(s: seq<Byte>): seq<Byte> {
    if s == [] then []
    else if Width(s) == 0 then REPLACEMENT + PerByte(s[1..])
    else s[..Width(s)] + PerByte(s[Width(s)..])
  }

  /** No two bytes of no character come one after the other; bad says that one came just before. */
  predicate Apart(s: seq<Byte>, bad: bool) {
    s == [] || if Width(s) == 0 then !bad && Apart(s[1..], true) else Apart(s[Width(s)..], false)
  }

  lemma {:induction false} ReplaceIsPerByte(s: seq<Byte>, bad: bool)
    ensures |Replace(s, bad)| <= |PerByte(s)|
    ensures Apart(s, bad) ==> Replace(s, bad) == PerByte(s)
    ensures !Apart(s, bad) ==> |Replace(s, bad)| < |PerByte(s)|
    decreases |s|
  {
    if s != [] {
      var w := Width(s);
      ReplaceIsPerByte(if w == 0 then s[1..] else s[w..], w == 0);
    }
  }

  /** It is so exactly when no two of them come one after the other; otherwise what is read is shorter. */
  lemma PerByteExactly(s: seq<Byte>)
    ensures ToText(s) == PerByte(s) <==> Apart(s, false)
    ensures !Apart(s, false) ==> |ToText(s)| < |PerByte(s)|
  {
    ReplaceIsPerByte(s, false);
  }

  /** Two bytes of no character are read as one U+FFFD, and not as two. */
  lemma TwoAreOne()
    ensures ToText([0xFF, 0xFF]) == REPLACEMENT && PerByte([0xFF, 0xFF]) == REPLACEMENT + REPLACEMENT
  {
    var s: seq<Byte> := [0xFF, 0xFF];
    var t := s[1..];
    assert t == [0xFF] && t[1..] == [];
    assert Replace(t[1..], true) == [] && PerByte(t[1..]) == [];
    assert Replace(t, true) == [] + [] == [];
    assert PerByte(t) == REPLACEMENT + [] == REPLACEMENT;
    assert REPLACEMENT + [] == REPLACEMENT;
  }

  /** The first n bytes are of no character, and what follows begins with one, or is nothing. */
  ghost predicate Run(s: seq<Byte>, n: nat) {
    && n <= |s| && (forall i | 0 <= i < n :: Width(s[i..]) == 0)
    && (n == |s| || Width(s[n..]) > 0)
  }

  lemma {:induction false} RunIsDropped(s: seq<Byte>, n: nat)
    requires Run(s, n)
    ensures Replace(s, true) == Replace(s[n..], false)
    decreases n
  {
    assert s[0..] == s;
    if n > 0 {
      RunOfRest(s, n);
      RunIsDropped(s[1..], n - 1);
      assert s[1..][n - 1..] == s[n..];
    }
  }

  lemma RunOfRest(s: seq<Byte>, n: nat)
    requires n > 0 && Run(s, n)
    ensures Run(s[1..], n - 1)
  {
    forall i | 0 <= i < n - 1 ensures Width(s[1..][i..]) == 0 {
      assert s[1..][i..] == s[i + 1..];
    }
    assert s[1..][n - 1..] == s[n..];
  }

  /** A run of bytes of no character is read as one U+FFFD, however long it is, and what follows as it is alone. */
  lemma RunIsOne(s: seq<Byte>, n: nat)
    requires n > 0 && Run(s, n)
    ensures ToText(s) == REPLACEMENT + ToText(s[n..])
  {
    assert s[0..] == s;
    RunOfRest(s, n);
    RunIsDropped(s[1..], n - 1);
    assert s[1..][n - 1..] == s[n..];
  }
}
