/**
 * The binary decoder and the layouts it takes (internal/decode/binary.go; internal/config/config.go:
 * checkBinaryResponse).
 */
module Binary {
  import opened Common
  import opened Utf8

  datatype Kind = U8 | I8 | U16 | I16 | U32 | I32 | U64 | I64 | F32 | F64 | Text | TextToNul | Skip

  datatype Order = Unsaid | Big | Little

  datatype Field = Field(name: string, kind: Kind, offset: Option<int>, count: int, length: int, order: Order)

  datatype Layout = Layout(fields: seq<Field>, order: Order)

  /**
   * A value of the document. A u64 past what an int holds, and a float, are floats, of which the model keeps the bits.
   */
  datatype Value =
    | Int(v: int)
    | FloatOf(v: int)
    | FloatBits(v: int)
    | Chars(bytes: seq<Byte>)
    | List(values: seq<Value>)

  type Document = map<string, Value>

  /** Panics is a slice out of range. */
  datatype Result = Ok(document: Document) | Short | NoNul | Panics

  const MAX_INT: int := 0x7FFF_FFFF_FFFF_FFFF
  const MAX_FIELDS: int := 1000
  const MAX_COUNT: int := 65536

  predicate Textual(k: Kind) {
    k.Text? || k.TextToNul? || k.Skip?
  }

  // ---- the layouts accepted ----

  predicate CheckField(f: Field) {
    && (f.kind.Skip? <==> f.name == "")
    && (f.offset.Some? ==> 0 <= f.offset.value <= MAX_INT)
    && 0 <= f.count <= MAX_COUNT && 0 <= f.length <= MAX_INT
    && (f.kind.Text? || f.kind.Skip? ==> f.length != 0)
    && (!Textual(f.kind) ==> f.length == 0)
    && (Textual(f.kind) ==> f.count == 0)
  }

  predicate CheckLayout(l: Layout) {
    && 0 < |l.fields| <= MAX_FIELDS
    && (forall i | 0 <= i < |l.fields| :: CheckField(l.fields[i]))
    && forall i, j | 0 <= i < j < |l.fields| && l.fields[i].name != "" :: l.fields[i].name != l.fields[j].name
  }

  // ---- numbers ----

  function Size(k: Kind): (n: nat)
    ensures 1 <= n <= 8
  {
    match k
    case U8 | I8 => 1
    case U16 | I16 => 2
    case U32 | I32 | F32 => 4
    case _ => 8
  }

  function ByteOrder(field: Order, layout: Order): Order {
    var o := if field.Unsaid? then layout else field;
    if o.Little? then Little else Big
  }

  /** The number the bytes are, the last byte the lowest. */
  function BigEndian(b: seq<Byte>): nat {
    if b == [] then 0 else BigEndian(b[..|b| - 1]) * 256 + b[|b| - 1]
  }

  /** The number the bytes are, the first byte the lowest. */
  function LittleEndian(b: seq<Byte>): nat {
    if b == [] then 0 else LittleEndian(b[1..]) * 256 + b[0]
  }

  function Unsigned(o: Order, b: seq<Byte>): nat {
    if o.Little? then LittleEndian(b) else BigEndian(b)
  }

  /** Two's complement. */
  function Signed(n: nat, size: nat): int {
    if 2 * n < Pow256(size) then n else n - Pow256(size)
  }

  function Number(k: Kind, o: Order, b: seq<Byte>): Value {
    var n := Unsigned(o, b);
    match k
    case U8 | U16 | U32 => Int(n)
    case I8 | I16 | I32 | I64 => Int(Signed(n, Size(k)))
    case U64 => if n <= MAX_INT then Int(n) else FloatOf(n)
    case _ => FloatBits(n)
  }

  // ---- the decoder ----

  /** What reading one field comes to: the next byte, and the value when the field has one. */
  datatype Step = Reads(at: nat, value: Option<Value>) | Stops(result: Result)

  function Start(f: Field, at: nat): nat
    requires CheckField(f)
  {
    if f.offset.Some? then f.offset.value else at
  }

  /** The sum of two ints, which wraps. */
  function Plus(a: nat, b: nat): int {
    if a + b > MAX_INT then a + b - 2 * (MAX_INT + 1) else a + b
  }

  /** The first NUL from at on, before end; end without one. */
  function NulFrom(body: seq<Byte>, at: nat, end: nat): (k: nat)
    requires at <= end <= |body|
    ensures at <= k <= end
    ensures k < end ==> body[k] == 0
    ensures forall j | at <= j < k :: body[j] != 0
    decreases end - at
  {
    if at == end || body[at] == 0 then at else NulFrom(body, at + 1, end)
  }

  /** The bytes of n values of a size. */
  function Span(size: nat, n: nat): nat {
    if n == 0 then 0 else size + Span(size, n - 1)
  }

  lemma {:induction false} SpanIs(size: nat, n: nat)
    ensures Span(size, n) == size * n
  {
    if n > 0 {
      SpanIs(size, n - 1);
      assert size * n == size + size * (n - 1);
    }
  }

  // How a value is read from its bytes.
  type Reader = seq<Byte> -> Value

  function NumberReader(k: Kind, o: Order): Reader {
    b => Number(k, o, b)
  }

  function ReadEach(read: Reader, size: nat, body: seq<Byte>, at: nat, n: nat): (vs: seq<Value>)
    requires at + Span(size, n) <= |body|
    ensures |vs| == n
    decreases n
  {
    if n == 0 then [] else
      var from := at + Span(size, n - 1);
      ReadEach(read, size, body, at, n - 1) + [read(body[from..from + size])]
  }

  function ReadField(body: seq<Byte>, f: Field, layout: Order, at0: nat): Step
    requires CheckField(f)
  {
    var at := Start(f, at0);
    if f.kind.Skip? then
      if f.length > |body| - at then Stops(Short) else Reads(at + f.length, None)
    else if f.kind.Text? then
      if f.length > |body| - at then Stops(Short)
      else Reads(at + f.length, Some(Chars(ToText(body[at..at + f.length]))))
    else if f.kind.TextToNul? then ReadText(body, at, f.length)
    else ReadNumeric(body, f.kind, ByteOrder(f.order, layout), at, f.count)
  }

  function ReadNumeric(body: seq<Byte>, k: Kind, o: Order, at: nat, count: nat): Step {
    var n := if count > 1 then count else 1;
    if Span(Size(k), n) > |body| - at then Stops(Short)
    else
      var vs := ReadEach(NumberReader(k, o), Size(k), body, at, n);
      Reads(at + Span(Size(k), n), Some(if count > 0 then List(vs) else vs[0]))
  }

  function ReadText(body: seq<Byte>, at: nat, length: nat): Step {
    var sum := Plus(at, length);
    var end := if length > 0 && sum < |body| then sum else |body|;
    if at >= |body| then Stops(Short)
    else if end < at then Stops(Panics)
    else
      var nul := NulFrom(body, at, end);
      if nul == end then Stops(NoNul) else Reads(nul + 1, Some(Chars(ToText(body[at..nul]))))
  }

  function DecodeFrom(body: seq<Byte>, l: Layout, i: nat, at: nat, doc: Document): Result
    requires CheckLayout(l) && i <= |l.fields|
    decreases |l.fields| - i
  {
    if i == |l.fields| then Ok(doc) else
      var f := l.fields[i];
      match ReadField(body, f, l.order, at)
      case Stops(r) => r
      case Reads(next, v) => DecodeFrom(body, l, i + 1, next, if v.Some? then doc[f.name := v.value] else doc)
  }

  function Decode(body: seq<Byte>, l: Layout): Result
    requires CheckLayout(l)
  {
    DecodeFrom(body, l, 0, 0, map[])
  }

  /** The decoder's loop. Every slice it takes is in range. */
  method DecodeBinary(body: seq<Byte>, l: Layout) returns (r: Result)
    requires CheckLayout(l)
    ensures r == Decode(body, l)
  {
    var document: Document := map[];
    var at: nat := 0;
    for i := 0 to |l.fields|
      invariant Decode(body, l) == DecodeFrom(body, l, i, at, document)
    {
      var f := l.fields[i];
      var s := DecodeField(body, f, l.order, at);
      if s.Stops? {
        return s.result;
      }
      if s.value.Some? {
        document := document[f.name := s.value.value];
      }
      at := s.at;
    }
    r := Ok(document);
  }

  method DecodeField(body: seq<Byte>, f: Field, layout: Order, at0: nat) returns (s: Step)
    requires CheckField(f)
    ensures s == ReadField(body, f, layout, at0)
  {
    var at := at0;
    if f.offset.Some? {
      at := f.offset.value;
    }
    if f.kind.Skip? {
      if f.length > |body| - at {
        return Stops(Short);
      }
      return Reads(at + f.length, None);
    }
    if f.kind.Text? {
      if f.length > |body| - at {
        return Stops(Short);
      }
      return Reads(at + f.length, Some(Chars(ToText(body[at..at + f.length]))));
    }
    if f.kind.TextToNul? {
      s := DecodeText(body, at, f.length);
      return;
    }
    s := DecodeNumbers(body, f.kind, ByteOrder(f.order, layout), at, f.count);
  }

  method DecodeText(body: seq<Byte>, at: nat, length: nat) returns (s: Step)
    ensures s == ReadText(body, at, length)
  {
    var end := |body|;
    if length > 0 && Plus(at, length) < end {
      end := Plus(at, length);
    }
    if at >= |body| {
      return Stops(Short);
    }
    if end < at {
      return Stops(Panics);
    }
    var nul := IndexNul(body, at, end);
    if nul == end {
      return Stops(NoNul);
    }
    s := Reads(nul + 1, Some(Chars(ToText(body[at..nul]))));
  }

  method DecodeNumbers(body: seq<Byte>, k: Kind, o: Order, at: nat, count: nat) returns (s: Step)
    ensures s == ReadNumeric(body, k, o, at, count)
  {
    var size, n := Size(k), if count > 1 then count else 1;
    var need := size * n;
    assert need == Span(size, n) by {
      SpanIs(size, n);
    }
    if need > |body| - at {
      return Stops(Short);
    }
    var values := ReadList(NumberReader(k, o), size, body, at, n);
    s := Reads(at + need, Some(if count > 0 then List(values) else values[0]));
    NumericIs(body, k, o, at, count, n, values);
  }

  lemma NumericIs(body: seq<Byte>, k: Kind, o: Order, at: nat, count: nat, n: nat, values: seq<Value>)
    requires n == (if count > 1 then count else 1) && Span(Size(k), n) <= |body| - at
    requires values == ReadEach(NumberReader(k, o), Size(k), body, at, n)
    ensures ReadNumeric(body, k, o, at, count) ==
      Reads(at + Span(Size(k), n), Some(if count > 0 then List(values) else values[0]))
  {
  }

  method IndexNul(body: seq<Byte>, at: nat, end: nat) returns (k: nat)
    requires at <= end <= |body|
    ensures k == NulFrom(body, at, end)
  {
    k := at;
    while k < end
      invariant at <= k <= end && NulFrom(body, at, end) == NulFrom(body, k, end)
    {
      if body[k] == 0 {
        return;
      }
      k := k + 1;
    }
  }

  method ReadList(read: Reader, size: nat, body: seq<Byte>, at: nat, n: nat) returns (vs: seq<Value>)
    requires at + Span(size, n) <= |body|
    ensures vs == ReadEach(read, size, body, at, n)
  {
    vs := [];
    var from: nat := at;
    for j := 0 to n
      invariant from == at + Span(size, j) && at + Span(size, j) <= |body|
      invariant vs == ReadEach(read, size, body, at, j)
    {
      SpanGrows(size, j + 1, n);
      vs := vs + [read(body[from..from + size])];
      from := from + size;
    }
  }

  lemma {:induction false} SpanGrows(size: nat, j: nat, n: nat)
    requires j <= n
    ensures Span(size, j) <= Span(size, n)
    decreases n
  {
    if j < n {
      SpanGrows(size, j, n - 1);
    }
  }

  // ---- slices out of range ----

  /** A field of text up to a NUL that starts in the body and whose end wraps past the largest int. */
  predicate Wraps(body: seq<Byte>, f: Field, at0: nat)
    requires CheckField(f)
  {
    f.kind.TextToNul? && f.length > 0 && Start(f, at0) < |body| && Start(f, at0) + f.length > MAX_INT
  }

  /** A field takes a slice out of range exactly when it wraps. */
  lemma PanicsExactly(body: seq<Byte>, f: Field, layout: Order, at: nat)
    requires CheckField(f) && |body| <= MAX_INT
    ensures ReadField(body, f, layout, at) == Stops(Panics) <==> Wraps(body, f, at)
  {
    var start := Start(f, at);
    if f.kind.TextToNul? && start < |body| && f.length > 0 && start + f.length > MAX_INT {
      assert Plus(start, f.length) < start;
    }
  }

  /** Where field i is read from when those from i0 on, before it, can be: none when one cannot. */
  function Reached(body: seq<Byte>, l: Layout, i0: nat, at: nat, i: nat): Option<nat>
    requires CheckLayout(l) && i0 <= i <= |l.fields|
    decreases i - i0
  {
    if i0 == i then Some(at) else
      match ReadField(body, l.fields[i0], l.order, at)
      case Stops(_) => None
      case Reads(next, _) => Reached(body, l, i0 + 1, next, i)
  }

  ghost predicate WrapsAt(body: seq<Byte>, l: Layout, i0: nat, at: nat, i: nat)
    requires CheckLayout(l) && i0 <= i < |l.fields|
  {
    Reached(body, l, i0, at, i).Some? && Wraps(body, l.fields[i], Reached(body, l, i0, at, i).value)
  }

  ghost predicate SomeWraps(body: seq<Byte>, l: Layout, i0: nat, at: nat)
    requires CheckLayout(l) && i0 <= |l.fields|
  {
    exists i: nat | i0 <= i < |l.fields| :: WrapsAt(body, l, i0, at, i)
  }

  lemma LaterWraps(body: seq<Byte>, l: Layout, i0: nat, at: nat)
    requires CheckLayout(l) && i0 < |l.fields| && |body| <= MAX_INT && ReadField(body, l.fields[i0], l.order, at).Reads?
    ensures SomeWraps(body, l, i0, at) <==> SomeWraps(body, l, i0 + 1, ReadField(body, l.fields[i0], l.order, at).at)
  {
    var next := ReadField(body, l.fields[i0], l.order, at).at;
    PanicsExactly(body, l.fields[i0], l.order, at);
    forall i: nat | i0 < i < |l.fields| ensures WrapsAt(body, l, i0, at, i) <==> WrapsAt(body, l, i0 + 1, next, i) {
      assert Reached(body, l, i0, at, i) == Reached(body, l, i0 + 1, next, i);
    }
    assert !WrapsAt(body, l, i0, at, i0);
    if SomeWraps(body, l, i0 + 1, next) {
      var i: nat :| i0 + 1 <= i < |l.fields| && WrapsAt(body, l, i0 + 1, next, i);
      assert WrapsAt(body, l, i0, at, i);
    }
    if SomeWraps(body, l, i0, at) {
      var i: nat :| i0 <= i < |l.fields| && WrapsAt(body, l, i0, at, i);
      assert WrapsAt(body, l, i0 + 1, next, i);
    }
  }

  /** So the decoder does exactly when it reaches such a field. */
  lemma {:induction false} DecodePanicsExactly(body: seq<Byte>, l: Layout, i0: nat, at: nat, doc: Document)
    requires CheckLayout(l) && i0 <= |l.fields| && |body| <= MAX_INT
    ensures DecodeFrom(body, l, i0, at, doc) == Panics <==> SomeWraps(body, l, i0, at)
    decreases |l.fields| - i0
  {
    if i0 < |l.fields| {
      var f := l.fields[i0];
      PanicsExactly(body, f, l.order, at);
      match ReadField(body, f, l.order, at)
      case Stops(r) =>
        assert forall i | i0 < i < |l.fields| :: Reached(body, l, i0, at, i) == None;
        assert WrapsAt(body, l, i0, at, i0) <==> r == Panics;
      case Reads(next, v) =>
        LaterWraps(body, l, i0, at);
        DecodePanicsExactly(body, l, i0 + 1, next, if v.Some? then doc[f.name := v.value] else doc);
    }
  }

  /** No layout whose text is of a length below this reads out of range, whatever the body. */
  lemma {:induction false} NeverPanics(body: seq<Byte>, l: Layout, i: nat, at: nat, doc: Document)
    requires CheckLayout(l) && i <= |l.fields| && |body| <= MAX_INT
    requires forall f | f in l.fields && f.kind.TextToNul? :: f.length <= MAX_INT + 1 - |body|
    ensures DecodeFrom(body, l, i, at, doc) != Panics
    decreases |l.fields| - i
  {
    if i < |l.fields| {
      var f := l.fields[i];
      assert f in l.fields;
      PanicsExactly(body, f, l.order, at);
      match ReadField(body, f, l.order, at)
      case Stops(_) =>
      case Reads(next, v) => NeverPanics(body, l, i + 1, next, if v.Some? then doc[f.name := v.value] else doc);
    }
  }

  /** A layout that is accepted, and a body of two bytes, for which one does. */
  lemma ALongTextPanics() returns (body: seq<Byte>, l: Layout)
    ensures CheckLayout(l) && Decode(body, l) == Panics
  {
    var f, g := Field("a", U8, None, 0, 0, Unsaid), Field("b", TextToNul, None, 0, MAX_INT, Unsaid);
    body, l := [1, 0], Layout([f, g], Unsaid);
    assert CheckField(f) && CheckField(g);
    var s := ReadField(body, f, Unsaid, 0);
    assert s.Reads? && s.at == 1;
    assert ReadField(body, g, Unsaid, 1) == Stops(Panics);
    assert DecodeFrom(body, l, 1, 1, map[f.name := s.value.value]) == Panics;
  }

  // ---- longer bodies ----

  lemma {:induction false} NulInPrefix(body: seq<Byte>, tail: seq<Byte>, at: nat, end: nat, end': nat)
    requires at <= end <= |body| && end <= end' <= |body + tail| && NulFrom(body, at, end) < end
    ensures NulFrom(body + tail, at, end') == NulFrom(body, at, end)
    decreases end - at
  {
    assert (body + tail)[at] == body[at];
    if body[at] != 0 {
      NulInPrefix(body, tail, at + 1, end, end');
    }
  }

  lemma TextPrefix(body: seq<Byte>, tail: seq<Byte>, at: nat, length: nat)
    requires ReadText(body, at, length).Reads?
    ensures ReadText(body + tail, at, length) == ReadText(body, at, length)
  {
    var long, sum := body + tail, Plus(at, length);
    var end := if length > 0 && sum < |body| then sum else |body|;
    var end' := if length > 0 && sum < |long| then sum else |long|;
    NulInPrefix(body, tail, at, end, end');
    var nul := NulFrom(body, at, end);
    assert long[at..nul] == body[at..nul];
  }

  lemma {:induction false} EachPrefix(read: Reader, size: nat, body: seq<Byte>, tail: seq<Byte>, at: nat, n: nat)
    requires at + Span(size, n) <= |body|
    ensures ReadEach(read, size, body + tail, at, n) == ReadEach(read, size, body, at, n)
    decreases n
  {
    if n > 0 {
      var from := at + Span(size, n - 1);
      assert (body + tail)[from..from + size] == body[from..from + size];
      EachPrefix(read, size, body, tail, at, n - 1);
    }
  }

  lemma NumericPrefix(body: seq<Byte>, tail: seq<Byte>, k: Kind, o: Order, at: nat, count: nat)
    requires ReadNumeric(body, k, o, at, count).Reads?
    ensures ReadNumeric(body + tail, k, o, at, count) == ReadNumeric(body, k, o, at, count)
  {
    EachPrefix(NumberReader(k, o), Size(k), body, tail, at, if count > 1 then count else 1);
  }

  lemma ReadsPrefix(body: seq<Byte>, tail: seq<Byte>, f: Field, layout: Order, at0: nat)
    requires CheckField(f) && ReadField(body, f, layout, at0).Reads?
    ensures ReadField(body + tail, f, layout, at0) == ReadField(body, f, layout, at0)
  {
    var at := Start(f, at0);
    if f.kind.Text? {
      assert (body + tail)[at..at + f.length] == body[at..at + f.length];
    } else if f.kind.TextToNul? {
      TextPrefix(body, tail, at, f.length);
    } else if !f.kind.Skip? {
      NumericPrefix(body, tail, f.kind, ByteOrder(f.order, layout), at, f.count);
    }
  }

  /** A body that decodes, with anything after it, decodes to the same document. */
  lemma {:induction false} LongerBody(body: seq<Byte>, tail: seq<Byte>, l: Layout, i: nat, at: nat, doc: Document)
    requires CheckLayout(l) && i <= |l.fields| && DecodeFrom(body, l, i, at, doc).Ok?
    ensures DecodeFrom(body + tail, l, i, at, doc) == DecodeFrom(body, l, i, at, doc)
    decreases |l.fields| - i
  {
    if i < |l.fields| {
      var f := l.fields[i];
      ReadsPrefix(body, tail, f, l.order, at);
      var s := ReadField(body, f, l.order, at);
      LongerBody(body, tail, l, i + 1, s.at, if s.value.Some? then doc[f.name := s.value.value] else doc);
    }
  }

  // ---- a document holds text ----

  ghost predicate HoldsText(doc: Document) {
    forall n | n in doc && doc[n].Chars? :: IsText(doc[n].bytes)
  }

  /** Text, if it is any. */
  predicate IsAnyText(s: Step) {
    s.Reads? && s.value.Some? && s.value.value.Chars? ==> IsText(s.value.value.bytes)
  }

  lemma FieldIsText(body: seq<Byte>, f: Field, layout: Order, at: nat)
    requires CheckField(f)
    ensures IsAnyText(ReadField(body, f, layout, at))
  {
    var start := Start(f, at);
    if f.kind.Text? {
      FixedTextIsText(body, f, layout, at);
    } else if f.kind.TextToNul? {
      TextToNulIsText(body, start, f.length);
    } else if !f.kind.Skip? {
      NumbersAreNoText(body, f.kind, ByteOrder(f.order, layout), start, f.count);
      assert ReadField(body, f, layout, at) == ReadNumeric(body, f.kind, ByteOrder(f.order, layout), start, f.count);
    }
  }

  lemma FixedTextIsText(body: seq<Byte>, f: Field, layout: Order, at: nat)
    requires CheckField(f) && f.kind.Text?
    ensures IsAnyText(ReadField(body, f, layout, at))
  {
    var start := Start(f, at);
    if f.length <= |body| - start {
      var t := TextAt(body, start, f.length);
      assert ReadField(body, f, layout, at) == Reads(start + f.length, Some(Chars(t)));
    }
  }

  lemma TextAt(body: seq<Byte>, at: nat, length: nat) returns (t: seq<Byte>)
    requires length <= |body| - at
    ensures t == ToText(body[at..at + length]) && IsText(t)
  {
    ToTextIsText(body[at..at + length]);
    t := ToText(body[at..at + length]);
  }

  lemma TextToNulIsText(body: seq<Byte>, at: nat, length: nat)
    ensures IsAnyText(ReadText(body, at, length))
  {
    var sum := Plus(at, length);
    var end := if length > 0 && sum < |body| then sum else |body|;
    if at < |body| && at <= end {
      ToTextIsText(body[at..NulFrom(body, at, end)]);
    }
  }

  lemma OneIsRead(read: Reader, size: nat, body: seq<Byte>, at: nat)
    requires at + Span(size, 1) <= |body|
    ensures at + size <= |body| && ReadEach(read, size, body, at, 1) == [read(body[at..at + size])]
  {
    assert Span(size, 1) == size + Span(size, 0);
    assert ReadEach(read, size, body, at, 0) == [];
  }

  lemma NumbersAreNoText(body: seq<Byte>, k: Kind, o: Order, at: nat, count: nat)
    ensures IsAnyText(ReadNumeric(body, k, o, at, count))
  {
    if count == 0 && Span(Size(k), 1) <= |body| - at {
      OneIsRead(NumberReader(k, o), Size(k), body, at);
      NoNumberIsText(k, o, body[at..at + Size(k)]);
    }
  }

  lemma NoNumberIsText(k: Kind, o: Order, b: seq<Byte>)
    ensures !NumberReader(k, o)(b).Chars?
  {
  }

  /** Whatever the bytes of the body, what a document holds of text is UTF-8. */
  lemma {:induction false} DecodedIsText(body: seq<Byte>, l: Layout, i: nat, at: nat, doc: Document)
    requires CheckLayout(l) && i <= |l.fields| && HoldsText(doc)
    ensures DecodeFrom(body, l, i, at, doc).Ok? ==> HoldsText(DecodeFrom(body, l, i, at, doc).document)
    decreases |l.fields| - i
  {
    if i < |l.fields| {
      var f := l.fields[i];
      FieldIsText(body, f, l.order, at);
      match ReadField(body, f, l.order, at)
      case Stops(_) =>
      case Reads(next, v) =>
        DecodedIsText(body, l, i + 1, next, if v.Some? then doc[f.name := v.value] else doc);
    }
  }

  // ---- what is encoded is decoded ----

  function ToBig(n: nat, size: nat): seq<Byte> {
    if size == 0 then [] else ToBig(n / 256, size - 1) + [n % 256]
  }

  function ToLittle(n: nat, size: nat): seq<Byte> {
    if size == 0 then [] else [n % 256] + ToLittle(n / 256, size - 1)
  }

  function ToBytes(o: Order, n: nat, size: nat): seq<Byte> {
    if o.Little? then ToLittle(n, size) else ToBig(n, size)
  }

  lemma DigitsBelow(n: nat, size: nat)
    requires size > 0 && n < Pow256(size)
    ensures n / 256 < Pow256(size - 1)
  {
  }

  lemma {:induction false} BytesDecode(o: Order, n: nat, size: nat)
    requires n < Pow256(size)
    ensures |ToBytes(o, n, size)| == size && Unsigned(o, ToBytes(o, n, size)) == n
  {
    if size > 0 {
      DigitsBelow(n, size);
      BytesDecode(o, n / 256, size - 1);
      assert n == n / 256 * 256 + n % 256;
      if o.Little? {
        assert ToLittle(n, size)[1..] == ToLittle(n / 256, size - 1);
      } else {
        assert ToBig(n, size)[..size - 1] == ToBig(n / 256, size - 1);
      }
    }
  }

  /** A value a number of the kind can hold: its range, and for a u64 past what an int holds, the float it reads as. */
  predicate FitsNumber(k: Kind, v: Value) {
    match k
    case U8 | U16 | U32 => v.Int? && 0 <= v.v < Pow256(Size(k))
    case I8 | I16 | I32 | I64 => v.Int? && 0 <= 2 * v.v + Pow256(Size(k)) < 2 * Pow256(Size(k))
    case U64 => (v.Int? && 0 <= v.v <= MAX_INT) || (v.FloatOf? && MAX_INT < v.v < Pow256(8))
    case _ => false
  }

  function EncodeNumber(k: Kind, o: Order, v: Value): seq<Byte>
    requires FitsNumber(k, v)
  {
    Pow256Values();
    ToBytes(o, if v.v < 0 then v.v + Pow256(Size(k)) else v.v, Size(k))
  }

  lemma Pow256Values()
    ensures Pow256(1) == 0x100 && Pow256(2) == 0x1_0000 && Pow256(4) == 0x1_0000_0000 && Pow256(8) == 2 * (MAX_INT + 1)
  {
    assert Pow256(2) == 256 * Pow256(1);
    assert Pow256(3) == 256 * Pow256(2);
    assert Pow256(4) == 256 * Pow256(3);
    assert Pow256(5) == 256 * Pow256(4);
    assert Pow256(6) == 256 * Pow256(5);
    assert Pow256(7) == 256 * Pow256(6);
  }

  /** Either byte order, unsigned or two's complement. */
  lemma NumberDecodes(k: Kind, o: Order, v: Value)
    requires FitsNumber(k, v)
    ensures |EncodeNumber(k, o, v)| == Size(k) && Number(k, o, EncodeNumber(k, o, v)) == v
  {
    var b, n := Encoded(k, o, v);
    Pow256Values();
  }

  lemma Encoded(k: Kind, o: Order, v: Value) returns (b: seq<Byte>, n: nat)
    requires FitsNumber(k, v)
    ensures b == EncodeNumber(k, o, v) && |b| == Size(k) && Unsigned(o, b) == n
    ensures n == if v.v < 0 then v.v + Pow256(Size(k)) else v.v
  {
    Pow256Values();
    b, n := EncodeNumber(k, o, v), if v.v < 0 then v.v + Pow256(Size(k)) else v.v;
    BytesDecode(o, n, Size(k));
  }

  /** The whole numbers of each kind, and the bytes they take. */
  lemma RangesAre(v: int)
    ensures FitsNumber(U8, Int(v)) <==> 0 <= v <= 0xFF
    ensures FitsNumber(I8, Int(v)) <==> -0x80 <= v <= 0x7F
    ensures FitsNumber(U16, Int(v)) <==> 0 <= v <= 0xFFFF
    ensures FitsNumber(I16, Int(v)) <==> -0x8000 <= v <= 0x7FFF
    ensures FitsNumber(U32, Int(v)) <==> 0 <= v <= 0xFFFF_FFFF
    ensures FitsNumber(I32, Int(v)) <==> -0x8000_0000 <= v <= 0x7FFF_FFFF
    ensures FitsNumber(I64, Int(v)) <==> -0x8000_0000_0000_0000 <= v <= 0x7FFF_FFFF_FFFF_FFFF
    ensures FitsNumber(U64, Int(v)) <==> 0 <= v <= 0x7FFF_FFFF_FFFF_FFFF
    ensures FitsNumber(U64, FloatOf(v)) <==> 0x8000_0000_0000_0000 <= v <= 0xFFFF_FFFF_FFFF_FFFF
  {
    Pow256Values();
  }

  /** A field of a number that is read moves on by its bytes, times the count. */
  lemma NumbersTake(body: seq<Byte>, f: Field, layout: Order, at: nat)
    requires CheckField(f) && !Textual(f.kind) && f.offset.None?
    ensures var s := ReadField(body, f, layout, at);
            var size := match f.kind case U8 | I8 => 1 case U16 | I16 => 2 case U32 | I32 | F32 => 4 case _ => 8;
            var need := size * if f.count > 1 then f.count else 1;
            if need <= |body| - at then s.Reads? && s.at == at + need else s == Stops(Short)
  {
    SpanIs(Size(f.kind), if f.count > 1 then f.count else 1);
  }

  // How a value is written in bytes.
  type Writer = Value -> seq<Byte>

  function NumberWriter(k: Kind, o: Order): Writer {
    v => if FitsNumber(k, v) then EncodeNumber(k, o, v) else []
  }

  function EncodeEach(write: Writer, vs: seq<Value>): seq<Byte> {
    if vs == [] then [] else EncodeEach(write, vs[..|vs| - 1]) + write(vs[|vs| - 1])
  }

  lemma {:induction false} EachDecodes(read: Reader, write: Writer, size: nat, vs: seq<Value>, body: seq<Byte>,
          at: nat, after: seq<Byte>)
    requires forall v | v in vs :: |write(v)| == size && read(write(v)) == v
    requires at <= |body| && body[at..] == EncodeEach(write, vs) + after
    ensures |EncodeEach(write, vs)| == Span(size, |vs|) && at + Span(size, |vs|) <= |body|
    ensures ReadEach(read, size, body, at, |vs|) == vs
    decreases |vs|
  {
    if vs != [] {
      var init, v := vs[..|vs| - 1], vs[|vs| - 1];
      var first, last := EncodeEach(write, init), write(v);
      assert body[at..] == first + (last + after);
      EachDecodes(read, write, size, init, body, at, last + after);
      Follows(body, at, first, last, after);
      assert v in vs;
      EachMore(read, write, size, body, at, init, v, after);
      assert vs == init + [v];
    }
  }

  lemma EachMore(read: Reader, write: Writer, size: nat, body: seq<Byte>, at: nat, init: seq<Value>, v: Value,
          after: seq<Byte>)
    requires |write(v)| == size && read(write(v)) == v
    requires var from := at + Span(size, |init|); from <= |body| && body[from..] == write(v) + after
    requires ReadEach(read, size, body, at, |init|) == init
    ensures at + Span(size, |init| + 1) <= |body| && ReadEach(read, size, body, at, |init| + 1) == init + [v]
  {
    var from := at + Span(size, |init|);
    assert Span(size, |init| + 1) == size + Span(size, |init|);
    assert body[from..from + size] == body[from..][..size] == write(v);
  }

  /** What comes at a place, when it is two parts and more. */
  lemma Follows(body: seq<Byte>, at: nat, first: seq<Byte>, rest: seq<Byte>, after: seq<Byte>)
    requires at <= |body| && body[at..] == (first + rest) + after
    ensures at + |first| <= |body| && body[at..at + |first|] == first && body[at + |first|..] == rest + after
  {
    assert body[at..] == first + (rest + after);
    assert body[at..][..|first|] == first && body[at..][|first|..] == rest + after;
  }

  predicate Fits(f: Field, v: Value) {
    if f.kind.Text? then v.Chars? && IsText(v.bytes) && |v.bytes| == f.length
    else if f.kind.TextToNul? then
      v.Chars? && IsText(v.bytes) && 0 !in v.bytes && (f.length > 0 ==> |v.bytes| < f.length)
    else if f.count > 0 then v.List? && |v.values| == f.count && forall x | x in v.values :: FitsNumber(f.kind, x)
    else FitsNumber(f.kind, v)
  }

  function EncodeField(f: Field, layout: Order, v: Value): seq<Byte>
    requires CheckField(f) && !f.kind.Skip? && Fits(f, v)
  {
    if f.kind.Text? then v.bytes
    else if f.kind.TextToNul? then v.bytes + [0]
    else if f.count > 0 then EncodeEach(NumberWriter(f.kind, ByteOrder(f.order, layout)), v.values)
    else EncodeNumber(f.kind, ByteOrder(f.order, layout), v)
  }

  lemma WritersAndReaders(k: Kind, o: Order, vs: seq<Value>)
    requires forall v | v in vs :: FitsNumber(k, v)
    ensures forall v | v in vs :: |NumberWriter(k, o)(v)| == Size(k) && NumberReader(k, o)(NumberWriter(k, o)(v)) == v
  {
    forall v | v in vs ensures |NumberWriter(k, o)(v)| == Size(k) && NumberReader(k, o)(NumberWriter(k, o)(v)) == v {
      NumberDecodes(k, o, v);
    }
  }

  lemma NumbersRead(k: Kind, o: Order, vs: seq<Value>, body: seq<Byte>, at: nat, after: seq<Byte>) returns (n: nat)
    requires forall v | v in vs :: FitsNumber(k, v)
    requires at <= |body| && body[at..] == EncodeEach(NumberWriter(k, o), vs) + after
    ensures n == |EncodeEach(NumberWriter(k, o), vs)| == Span(Size(k), |vs|) <= |body| - at
    ensures ReadEach(NumberReader(k, o), Size(k), body, at, |vs|) == vs
  {
    WritersAndReaders(k, o, vs);
    EachDecodes(NumberReader(k, o), NumberWriter(k, o), Size(k), vs, body, at, after);
    n := Span(Size(k), |vs|);
  }

  lemma NumericDecodes(k: Kind, o: Order, vs: seq<Value>, count: nat, body: seq<Byte>, at: nat, after: seq<Byte>)
    requires forall v | v in vs :: FitsNumber(k, v)
    requires |vs| == if count > 1 then count else 1
    requires at <= |body| && body[at..] == EncodeEach(NumberWriter(k, o), vs) + after
    ensures ReadNumeric(body, k, o, at, count) ==
      Reads(at + |EncodeEach(NumberWriter(k, o), vs)|, Some(if count > 0 then List(vs) else vs[0]))
  {
    var n := NumbersRead(k, o, vs, body, at, after);
    var s := NumericStep(body, k, o, at, count, vs, n);
    assert n == |EncodeEach(NumberWriter(k, o), vs)|;
  }

  lemma NumericStep(body: seq<Byte>, k: Kind, o: Order, at: nat, count: nat, vs: seq<Value>, n: nat) returns (s: Step)
    requires |vs| == (if count > 1 then count else 1) && n == Span(Size(k), |vs|) <= |body| - at
    requires ReadEach(NumberReader(k, o), Size(k), body, at, |vs|) == vs
    ensures s == ReadNumeric(body, k, o, at, count) == Reads(at + n, Some(if count > 0 then List(vs) else vs[0]))
  {
    NumericIs(body, k, o, at, count, |vs|, vs);
    s := ReadNumeric(body, k, o, at, count);
  }

  /** The first NUL is where it was seen that there is none before. */
  lemma {:induction false} FirstNul(body: seq<Byte>, at: nat, nul: nat, end: nat)
    requires at <= nul < end <= |body| && body[nul] == 0 && forall j | at <= j < nul :: body[j] != 0
    ensures NulFrom(body, at, end) == nul
    decreases nul - at
  {
    if at < nul {
      FirstNul(body, at + 1, nul, end);
    }
  }

  lemma TextThenNul(text: seq<Byte>, body: seq<Byte>, at: nat, after: seq<Byte>)
    requires 0 !in text && at <= |body| && body[at..] == (text + [0]) + after
    ensures var nul := at + |text|;
            nul < |body| && body[at..nul] == text && body[nul] == 0 && forall j | at <= j < nul :: body[j] != 0
  {
    var nul := at + |text|;
    Follows(body, at, text, [0], after);
    assert body[nul..][0] == 0;
    forall j | at <= j < nul ensures body[j] != 0 {
      assert body[at..nul][j - at] == text[j - at];
    }
  }

  lemma ReadsText(body: seq<Byte>, at: nat, length: nat, nul: nat, text: seq<Byte>)
    requires at <= nul < |body| && body[at..nul] == text && IsText(text) && |body| + length <= MAX_INT
    requires body[nul] == 0 && (forall j | at <= j < nul :: body[j] != 0) && (length > 0 ==> nul - at < length)
    ensures ReadText(body, at, length) == Reads(nul + 1, Some(Chars(text)))
  {
    var end := if length > 0 && Plus(at, length) < |body| then Plus(at, length) else |body|;
    FirstNul(body, at, nul, end);
    assert ToText(text) == text by {
      ToTextIsText(text);
    }
  }

  lemma TextDecodes(text: seq<Byte>, length: nat, body: seq<Byte>, at: nat, after: seq<Byte>)
    requires IsText(text) && 0 !in text && (length > 0 ==> |text| < length)
    requires at <= |body| && body[at..] == (text + [0]) + after && |body| + length <= MAX_INT
    ensures ReadText(body, at, length) == Reads(at + |text| + 1, Some(Chars(text)))
  {
    TextThenNul(text, body, at, after);
    ReadsText(body, at, length, at + |text|, text);
  }

  lemma TextRead(text: seq<Byte>, body: seq<Byte>, at: nat, after: seq<Byte>)
    requires IsText(text) && at <= |body| && body[at..] == text + after
    ensures |text| <= |body| - at && ToText(body[at..at + |text|]) == text
  {
    ToTextIsText(text);
    assert body[at..at + |text|] == body[at..][..|text|] == text;
  }

  lemma NumericFieldDecodes(f: Field, layout: Order, v: Value, body: seq<Byte>, at: nat, after: seq<Byte>)
    requires CheckField(f) && !Textual(f.kind) && Fits(f, v)
    requires at <= |body| && body[at..] == EncodeField(f, layout, v) + after
    ensures ReadNumeric(body, f.kind, ByteOrder(f.order, layout), at, f.count) ==
      Reads(at + |EncodeField(f, layout, v)|, Some(v))
  {
    var o := ByteOrder(f.order, layout);
    if f.count > 0 {
      NumericDecodes(f.kind, o, v.values, f.count, body, at, after);
    } else {
      SingleEncodes(f.kind, o, v);
      NumericDecodes(f.kind, o, [v], 0, body, at, after);
    }
  }

  lemma FieldDecodes(f: Field, layout: Order, v: Value, body: seq<Byte>, at: nat, after: seq<Byte>)
    requires CheckField(f) && !f.kind.Skip? && Fits(f, v) && f.offset.None?
    requires at <= |body| && body[at..] == EncodeField(f, layout, v) + after && |body| + f.length <= MAX_INT
    ensures ReadField(body, f, layout, at) == Reads(at + |EncodeField(f, layout, v)|, Some(v))
  {
    if f.kind.Text? {
      TextRead(v.bytes, body, at, after);
    } else if f.kind.TextToNul? {
      TextDecodes(v.bytes, f.length, body, at, after);
    } else {
      NumericFieldDecodes(f, layout, v, body, at, after);
    }
  }

  lemma SingleEncodes(k: Kind, o: Order, v: Value)
    requires FitsNumber(k, v)
    ensures EncodeEach(NumberWriter(k, o), [v]) == EncodeNumber(k, o, v)
  {
    assert [v][..0] == [];
    assert EncodeEach(NumberWriter(k, o), []) == [];
  }

  /**
   * A document of the layout's names, each with a value its field can hold; no field at an offset, and none a float.
   */
  ghost predicate Holds(l: Layout, doc: Document) {
    && (forall i | 0 <= i < |l.fields| :: HoldsField(l.fields[i], doc))
    && forall n | n in doc :: NamedFrom(l, 0, n)
  }

  predicate HoldsField(f: Field, doc: Document) {
    f.offset.None? && HasField(f, doc)
  }

  predicate HasField(f: Field, doc: Document) {
    f.kind.Skip? || (f.name in doc && Fits(f, doc[f.name]))
  }

  ghost predicate NamedFrom(l: Layout, i: nat, n: string) {
    exists j :: i <= j < |l.fields| && l.fields[j].name == n && !l.fields[j].kind.Skip?
  }

  function Zeros(n: nat): (z: seq<Byte>)
    ensures |z| == n
  {
    seq(n, i => 0)
  }

  function EncodePart(f: Field, layout: Order, doc: Document): seq<Byte>
    requires CheckField(f) && HoldsField(f, doc)
  {
    if f.kind.Skip? then Zeros(f.length) else EncodeField(f, layout, doc[f.name])
  }

  ghost function EncodeFrom(l: Layout, i: nat, doc: Document): seq<Byte>
    requires CheckLayout(l) && Holds(l, doc) && i <= |l.fields|
    decreases |l.fields| - i
  {
    if i == |l.fields| then [] else EncodePart(l.fields[i], l.order, doc) + EncodeFrom(l, i + 1, doc)
  }

  lemma PartDecodes(f: Field, layout: Order, doc: Document, body: seq<Byte>, at: nat, after: seq<Byte>)
    requires CheckField(f) && HoldsField(f, doc)
    requires at <= |body| && body[at..] == EncodePart(f, layout, doc) + after && |body| + f.length <= MAX_INT
    ensures ReadField(body, f, layout, at) ==
            Reads(at + |EncodePart(f, layout, doc)|, if f.kind.Skip? then None else Some(doc[f.name]))
  {
    if !f.kind.Skip? {
      FieldDecodes(f, layout, doc[f.name], body, at, after);
    }
  }

  /** What is decoded already is of the document, and what is not is a field's still to come. */
  ghost predicate Part(l: Layout, i: nat, doc: Document, done: Document) {
    (forall n | n in done :: n in doc && done[n] == doc[n]) && forall n | n in doc :: n in done || NamedFrom(l, i, n)
  }

  lemma NextPart(l: Layout, i: nat, doc: Document, done: Document)
    requires i < |l.fields| && HasField(l.fields[i], doc) && Part(l, i, doc, done)
    ensures var f := l.fields[i]; Part(l, i + 1, doc, if f.kind.Skip? then done else done[f.name := doc[f.name]])
  {
    var f := l.fields[i];
    forall n | n in doc && n !in done && (f.kind.Skip? || n != f.name) ensures NamedFrom(l, i + 1, n) {
      var j :| i <= j < |l.fields| && l.fields[j].name == n && !l.fields[j].kind.Skip?;
    }
  }

  /** What is encoded from a field on is its part and what is encoded from the next one on. */
  lemma EncodeSplits(l: Layout, doc: Document, i: nat, tail: seq<Byte>) returns (part: seq<Byte>, rest: seq<Byte>)
    requires CheckLayout(l) && Holds(l, doc) && i < |l.fields|
    ensures HoldsField(l.fields[i], doc) && part == EncodePart(l.fields[i], l.order, doc)
    ensures rest == EncodeFrom(l, i + 1, doc) + tail && EncodeFrom(l, i, doc) + tail == part + rest
  {
    part, rest := EncodePart(l.fields[i], l.order, doc), EncodeFrom(l, i + 1, doc) + tail;
    Associates(part, EncodeFrom(l, i + 1, doc), tail);
  }

  lemma Associates(a: seq<Byte>, b: seq<Byte>, c: seq<Byte>)
    ensures (a + b) + c == a + (b + c)
  {
  }

  /** What a field of the document reads as. */
  function ReadOf(f: Field, doc: Document): Option<Value>
    requires HoldsField(f, doc)
  {
    if f.kind.Skip? then None else Some(doc[f.name])
  }

  lemma PartRead(f: Field, layout: Order, doc: Document, body: seq<Byte>, at: nat, part: seq<Byte>, rest: seq<Byte>)
    returns (next: nat)
    requires CheckField(f) && HoldsField(f, doc) && part == EncodePart(f, layout, doc)
    requires at <= |body| && body[at..] == part + rest && |body| + f.length <= MAX_INT
    ensures next <= |body| && body[next..] == rest && ReadField(body, f, layout, at) == Reads(next, ReadOf(f, doc))
  {
    PartDecodes(f, layout, doc, body, at, rest);
    assert part + rest == (part + []) + rest && [] + rest == rest;
    Follows(body, at, part, [], rest);
    next := at + |part|;
  }

  lemma DecodeStep(body: seq<Byte>, l: Layout, i: nat, at: nat, done: Document, next: nat, v: Option<Value>)
    returns (done': Document)
    requires CheckLayout(l) && i < |l.fields| && ReadField(body, l.fields[i], l.order, at) == Reads(next, v)
    ensures done' == if v.Some? then done[l.fields[i].name := v.value] else done
    ensures DecodeFrom(body, l, i, at, done) == DecodeFrom(body, l, i + 1, next, done')
  {
    done' := if v.Some? then done[l.fields[i].name := v.value] else done;
  }

  ghost predicate Gives(body: seq<Byte>, l: Layout, i: nat, at: nat, done: Document, doc: Document)
    requires CheckLayout(l) && i <= |l.fields|
  {
    DecodeFrom(body, l, i, at, done) == Ok(doc)
  }

  /** From field i on, and from a byte on, the body is what was encoded of the document, and then tail. */
  ghost predicate Encodes(l: Layout, doc: Document, i: nat, body: seq<Byte>, at: nat, tail: seq<Byte>)
    requires CheckLayout(l)
  {
    && Holds(l, doc) && i <= |l.fields|
    && at <= |body| && body[at..] == EncodeFrom(l, i, doc) + tail
    && forall f | f in l.fields :: |body| + f.length <= MAX_INT
  }

  lemma StepBack(l: Layout, doc: Document, i: nat, body: seq<Byte>, at: nat, tail: seq<Byte>, done: Document)
    returns (next: nat, done': Document)
    requires CheckLayout(l) && i < |l.fields| && Encodes(l, doc, i, body, at, tail) && Part(l, i, doc, done)
    ensures Encodes(l, doc, i + 1, body, next, tail) && Part(l, i + 1, doc, done')
    ensures Gives(body, l, i + 1, next, done', doc) ==> Gives(body, l, i, at, done, doc)
  {
    assert l.fields[i] in l.fields;
    var part, rest := EncodeSplits(l, doc, i, tail);
    next := PartRead(l.fields[i], l.order, doc, body, at, part, rest);
    done' := DecodeStep(body, l, i, at, done, next, ReadOf(l.fields[i], doc));
    NextPart(l, i, doc, done);
  }

  lemma AllDone(l: Layout, doc: Document, done: Document)
    requires Part(l, |l.fields|, doc, done)
    ensures done == doc
  {
    assert forall n :: !NamedFrom(l, |l.fields|, n);
  }

  /** Decoding what was encoded gives the document back, whatever comes before it and after it. */
  lemma {:induction false} DecodesBack(l: Layout, doc: Document, i: nat, body: seq<Byte>, at: nat, tail: seq<Byte>,
          done: Document)
    requires CheckLayout(l) && i <= |l.fields| && Encodes(l, doc, i, body, at, tail) && Part(l, i, doc, done)
    ensures Gives(body, l, i, at, done, doc)
    decreases |l.fields| - i
  {
    if i == |l.fields| {
      AllDone(l, doc, done);
    } else {
      var next, done' := StepBack(l, doc, i, body, at, tail, done);
      DecodesBack(l, doc, i + 1, body, next, tail, done');
    }
  }

  lemma EncodeThenDecode(l: Layout, doc: Document, tail: seq<Byte>)
    requires CheckLayout(l) && Holds(l, doc)
    requires forall f | f in l.fields :: |EncodeFrom(l, 0, doc) + tail| + f.length <= MAX_INT
    ensures Decode(EncodeFrom(l, 0, doc) + tail, l) == Ok(doc)
  {
    var body := EncodeFrom(l, 0, doc) + tail;
    assert body[0..] == body;
    DecodesBack(l, doc, 0, body, 0, tail, map[]);
  }
}
