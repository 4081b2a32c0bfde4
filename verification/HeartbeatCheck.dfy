/**
 * The heartbeats the allocator takes (internal/allocator/server.go: checkHeartbeat, validAddress). A string is its
 * characters, and its length in the program is that of its UTF-8.
 */
module HeartbeatCheck {
  import opened Common

  const MAX_MEMBER_BYTES: nat := 253
  const MAX_INSTANCE_BYTES: nat := 64

  function CharBytes(c: char): nat {
    if c as int < 0x80 then 1 else if c as int < 0x800 then 2 else if c as int < 0x1_0000 then 3 else 4
  }

  function ByteLength(s: string): nat {
    if s == "" then 0 else CharBytes(s[0]) + ByteLength(s[1..])
  }

  /** unicode.IsSpace. */
  predicate IsSpace(c: char) {
    var n := c as int;
    || 0x09 <= n <= 0x0D || n == 0x20 || n == 0x85 || n == 0xA0 || n == 0x1680 || 0x2000 <= n <= 0x200A
    || n == 0x2028 || n == 0x2029 || n == 0x202F || n == 0x205F || n == 0x3000
  }

  predicate IsControl(c: char) {
    c < ' ' || c as int == 0x7F
  }

  predicate IsMember(s: string) {
    && (exists i :: 0 <= i < |s| && !IsSpace(s[i]))
    && ByteLength(s) <= MAX_MEMBER_BYTES
    && forall i | 0 <= i < |s| :: !IsControl(s[i])
  }

  // ---- addresses ----

  predicate Lacks(s: string, c: char) {
    forall i | 0 <= i < |s| :: s[i] != c
  }

  predicate LacksBrackets(s: string) {
    Lacks(s, '[') && Lacks(s, ']')
  }

  /** The last index of c before n; none when there is none. */
  function LastIndex(s: string, c: char, n: nat): (k: Option<nat>)
    requires n <= |s|
    ensures k.Some? ==> k.value < n && s[k.value] == c && forall i | k.value < i < n :: s[i] != c
    ensures k.None? ==> forall i | 0 <= i < n :: s[i] != c
  {
    if n == 0 then None else if s[n - 1] == c then Some(n - 1) else LastIndex(s, c, n - 1)
  }

  /** The first index of c from n on; none when there is none. */
  function FirstIndex(s: string, c: char, n: nat): (k: Option<nat>)
    requires n <= |s|
    ensures k.Some? ==> n <= k.value < |s| && s[k.value] == c && forall i | n <= i < k.value :: s[i] != c
    ensures k.None? ==> forall i | n <= i < |s| :: s[i] != c
    decreases |s| - n
  {
    if n == |s| then None else if s[n] == c then Some(n) else FirstIndex(s, c, n + 1)
  }

  datatype HostPort = HostPort(host: string, port: string)

  /** net.SplitHostPort. */
  function SplitHostPort(a: string): Option<HostPort> {
    var colon := LastIndex(a, ':', |a|);
    if colon.None? then None else if a[0] == '[' then SplitBracketed(a, colon.value) else SplitPlain(a, colon.value)
  }

  /** The port after the colon at k, and a host before it that has none. */
  function SplitPlain(a: string, k: nat): Option<HostPort>
    requires k < |a|
  {
    if Lacks(a[..k], ':') && LacksBrackets(a) then Some(HostPort(a[..k], a[k + 1..])) else None
  }

  /** The same, with a host in brackets. */
  function SplitBracketed(a: string, k: nat): Option<HostPort>
    requires k < |a|
  {
    var end := FirstIndex(a, ']', 0);
    if end.None? || end.value + 1 != k || !Lacks(a[1..], '[') || !Lacks(a[k..], ']') then None
    else if end.value == 0 then None
    else Some(HostPort(a[1..end.value], a[k + 1..]))
  }

  predicate IsDigit(c: char) {
    '0' <= c <= '9'
  }

  predicate Digits(s: string) {
    forall i | 0 <= i < |s| :: IsDigit(s[i])
  }

  function Value(s: string): nat
    requires Digits(s)
  {
    if s == "" then 0 else Value(s[..|s| - 1]) * 10 + (s[|s| - 1] as int - '0' as int)
  }

  predicate IsPort(s: string) {
    s != "" && Digits(s) && 1 <= Value(s) <= 65535
  }

  predicate ValidAddress(a: string) {
    var split := SplitHostPort(a);
    split.Some? && split.value.host != "" && IsPort(split.value.port)
  }

  /** A host and a port: a host without colons, or one in brackets with any. */
  predicate IsHostPort(a: string, host: string, port: string) {
    || (a == host + ":" + port && Lacks(host, ':') && LacksBrackets(host))
    || (a == "[" + host + "]:" + port && LacksBrackets(host))
  }

  lemma PlainIs(a: string, k: nat)
    requires k < |a| && a[k] == ':' && SplitPlain(a, k).Some?
    ensures IsHostPort(a, a[..k], a[k + 1..])
  {
    assert a == a[..k] + ":" + a[k + 1..];
  }

  lemma BracketedIs(a: string, k: nat)
    requires k < |a| && a[0] == '[' && a[k] == ':' && SplitBracketed(a, k).Some?
    ensures IsHostPort(a, a[1..k - 1], a[k + 1..])
  {
    var host := a[1..k - 1];
    assert a == "[" + host + "]:" + a[k + 1..];
    forall i | 0 <= i < |host| ensures host[i] != '[' && host[i] != ']' {
      assert host[i] == a[1..][i] == a[i + 1];
    }
  }

  /** The colon before the port is the last one. */
  lemma LastBeforePort(a: string, front: string, port: string)
    requires a == front + ":" + port && IsPort(port)
    ensures LastIndex(a, ':', |a|) == Some(|front|)
  {
    assert a[|front|] == ':';
    forall i | |front| < i < |a| ensures a[i] != ':' {
      assert a[i] == port[i - |front| - 1] && IsDigit(port[i - |front| - 1]);
    }
  }

  lemma PortLacksBrackets(port: string)
    requires Digits(port)
    ensures LacksBrackets(port)
  {
    assert forall i | 0 <= i < |port| :: IsDigit(port[i]);
  }

  lemma PlainSplits(a: string, host: string, port: string)
    requires a == host + ":" + port && host != "" && Lacks(host, ':') && LacksBrackets(host) && IsPort(port)
    ensures SplitHostPort(a) == Some(HostPort(host, port))
  {
    LastBeforePort(a, host, port);
    PortLacksBrackets(port);
    assert a[..|host|] == host && a[|host| + 1..] == port && a[0] == host[0];
    forall i | 0 <= i < |a| ensures a[i] != '[' && a[i] != ']' {
      assert a[i] == if i < |host| then host[i] else if i == |host| then ':' else port[i - |host| - 1];
    }
  }

  lemma BracketedSplits(a: string, host: string, port: string)
    requires a == "[" + host + "]:" + port && LacksBrackets(host) && IsPort(port)
    ensures SplitHostPort(a) == Some(HostPort(host, port))
  {
    var front, k := "[" + host + "]", |host| + 2;
    assert a == front + ":" + port;
    LastBeforePort(a, front, port);
    PortLacksBrackets(port);
    assert a[0] == '[' && a[k - 1] == ']' && a[1..k - 1] == host && a[k + 1..] == port;
    forall i | 0 < i < |a| ensures a[i] != '[' && (a[i] == ']' ==> i == k - 1) {
      assert a[i] == if i < k - 1 then host[i - 1] else if i == k - 1 then ']'
                     else if i == k then ':' else port[i - k - 1];
    }
  }

  /** The addresses taken are a host, not empty, and a port from 1 to 65535, and no others. */
  lemma ValidAddressIs(a: string)
    ensures ValidAddress(a) <==> exists host, port :: host != "" && IsPort(port) && IsHostPort(a, host, port)
  {
    if ValidAddress(a) {
      var k := LastIndex(a, ':', |a|).value;
      if a[0] == '[' {
        BracketedIs(a, k);
      } else {
        PlainIs(a, k);
      }
    }
    if host, port :| host != "" && IsPort(port) && IsHostPort(a, host, port) {
      if a == host + ":" + port && Lacks(host, ':') && LacksBrackets(host) {
        PlainSplits(a, host, port);
      } else {
        BracketedSplits(a, host, port);
      }
    }
  }

  lemma OneByteTakes(s: string)
    requires |s| == 1
    ensures 1 <= ByteLength(s) <= 4
  {
    assert s[1..] == "";
  }

  lemma OneDigitPort()
    ensures ValidAddress("h:1")
  {
    var a := "h:1";
    assert "1"[..0] == "" && Value("1") == 1;
    assert IsPort("1");
    assert a == "h" + ":" + "1";
    PlainSplits(a, "h", "1");
  }

  /** checkHeartbeat. */
  predicate Accepts(member: string, advertise: string, instance: string, sequence: nat) {
    && IsMember(member) && ValidAddress(advertise)
    && 1 <= ByteLength(instance) <= MAX_INSTANCE_BYTES && sequence != 0
  }

  ghost predicate IsAscii(s: string) {
    forall i | 0 <= i < |s| :: ' ' <= s[i] <= '~'
  }

  lemma {:induction false} AsciiBytes(s: string)
    requires IsAscii(s)
    ensures ByteLength(s) == |s|
  {
    if s != "" {
      AsciiBytes(s[1..]);
    }
  }

  /** Of names in ASCII: a member of at most 253 bytes, not all spaces, a process of 1 to 64, and a number from 1. */
  lemma AcceptsExactly(member: string, advertise: string, instance: string, sequence: nat)
    requires IsAscii(member) && IsAscii(instance)
    ensures Accepts(member, advertise, instance, sequence) <==>
            && |member| <= 253 && (exists i :: 0 <= i < |member| && member[i] != ' ')
            && 1 <= |instance| <= 64 && sequence >= 1
            && exists host, port :: host != "" && IsPort(port) && IsHostPort(advertise, host, port)
  {
    AsciiBytes(member);
    AsciiBytes(instance);
    ValidAddressIs(advertise);
    assert forall i | 0 <= i < |member| :: (IsSpace(member[i]) <==> member[i] == ' ') && !IsControl(member[i]);
  }

  /** Ports are decimal, from 1 to 65535. */
  lemma PortsAre()
    ensures IsPort("1") && IsPort("65535") && !IsPort("65536") && !IsPort("0") && !IsPort("") && !IsPort("a")
  {
    assert "1"[..0] == "" && "0"[..0] == "" && "6"[..0] == "";
    assert "65"[..1] == "6" && "655"[..2] == "65" && "6553"[..3] == "655";
    assert "65535"[..4] == "6553" && "65536"[..4] == "6553";
    assert Value("6553") == 6553;
    assert !IsDigit("a"[0]);
  }
}
