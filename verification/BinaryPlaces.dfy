/**
 * Layouts whose fields are at offsets, jumping ahead or back, and the byte order a number is read in
 * (internal/decode/binary.go: decodeBinary, binaryOrder).
 */
module BinaryPlaces {
  import opened Common
  import opened Utf8
  import opened Binary

  /** A number is in the field's byte order, or else the layout's, or else big-endian. */
  predicate IsLittle(field: Order, layout: Order) {
    field.Little? || (field.Unsaid? && layout.Little?)
  }

  /** The bytes of an unsigned number, the lowest first when it is little-endian and the highest otherwise. */
  function BytesOf(field: Order, layout: Order, n: nat, size: nat): seq<Byte> {
    if IsLittle(field, layout) then ToLittle(n, size) else ToBig(n, size)
  }

  /** A field read from its offset is the field without one read from there, wherever the field before it ended. */
  lemma AtOffset(body: seq<Byte>, f: Field, layout: Order, at: nat, start: nat)
    requires CheckField(f) && f.offset == Some(start)
    ensures ReadField(body, f, layout, at) == ReadField(body, f.(offset := None), layout, start)
  {
  }

  /** Wherever a field is to start: at its offset, or where the one before it ended. */
  predicate StartsAt(f: Field, at: nat, start: nat) {
    if f.offset.Some? then f.offset.value == start else at == start
  }

  /** A field of any kind, at an offset or not, that is written in the body where it starts is read back. */
  lemma FieldIsRead(body: seq<Byte>, f: Field, layout: Order, v: Value, at: nat, start: nat)
    requires CheckField(f) && !f.kind.Skip? && Fits(f, v) && StartsAt(f, at, start) && |body| + f.length <= MAX_INT
    requires var b := EncodeField(f, layout, v); start + |b| <= |body| && body[start..start + |b|] == b
    ensures ReadField(body, f, layout, at) == Reads(start + |EncodeField(f, layout, v)|, Some(v))
  {
    var g, b := f.(offset := None), EncodeField(f, layout, v);
    assert EncodeField(g, layout, v) == b;
    assert body[start..] == b + body[start + |b|..];
    FieldDecodes(g, layout, v, body, start, body[start + |b|..]);
    if f.offset.Some? {
      AtOffset(body, f, layout, at, start);
    }
  }

  /** An unsigned number is read in the order said, the field's before the layout's. */
  lemma NumberIsRead(body: seq<Byte>, f: Field, layout: Order, n: nat, at: nat, start: nat)
    requires CheckField(f) && f.kind in {U8, U16, U32} && f.count == 0 && n < Pow256(Size(f.kind))
    requires StartsAt(f, at, start) && |body| <= MAX_INT
    requires var b := BytesOf(f.order, layout, n, Size(f.kind)); start + |b| <= |body| && body[start..start + |b|] == b
    ensures ReadField(body, f, layout, at) == Reads(start + Size(f.kind), Some(Int(n)))
  {
    var o := ByteOrder(f.order, layout);
    assert o.Little? <==> IsLittle(f.order, layout);
    NumberDecodes(f.kind, o, Int(n));
    assert EncodeField(f, layout, Int(n)) == BytesOf(f.order, layout, n, Size(f.kind));
    FieldIsRead(body, f, layout, Int(n), at, start);
  }

  // ---- documents at their places ----

  /** A document of the layout's names, each with a value its field can hold. */
  ghost predicate Has(l: Layout, doc: Document) {
    && (forall i | 0 <= i < |l.fields| :: HasField(l.fields[i], doc))
    && forall n | n in doc :: NamedFrom(l, 0, n)
  }

  function BytesFor(f: Field, layout: Order, doc: Document): nat
    requires CheckField(f) && HasField(f, doc)
  {
    if f.kind.Skip? then f.length else |EncodeField(f, layout, doc[f.name])|
  }

  /** Where the fields before the i-th end, and so where the i-th is but for an offset. */
  ghost function EndBefore(l: Layout, doc: Document, i: nat): nat
    requires CheckLayout(l) && Has(l, doc) && i <= |l.fields|
    decreases i, 0
  {
    if i == 0 then 0 else PlaceOf(l, doc, i - 1) + BytesFor(l.fields[i - 1], l.order, doc)
  }

  ghost function PlaceOf(l: Layout, doc: Document, i: nat): nat
    requires CheckLayout(l) && Has(l, doc) && i < |l.fields|
    decreases i, 1
  {
    if l.fields[i].offset.Some? then l.fields[i].offset.value else EndBefore(l, doc, i)
  }

  /** The body has the document's value of field i at its place; of bytes passed over it only has as many. */
  ghost predicate WrittenAt(l: Layout, doc: Document, body: seq<Byte>, i: nat)
    requires CheckLayout(l) && Has(l, doc) && i < |l.fields|
  {
    var f, at := l.fields[i], PlaceOf(l, doc, i);
    && at + BytesFor(f, l.order, doc) <= |body|
    && (!f.kind.Skip? ==>
          body[at..at + BytesFor(f, l.order, doc)] == EncodeField(f, l.order, doc[f.name]))
  }

  ghost predicate Written(l: Layout, doc: Document, body: seq<Byte>) {
    && CheckLayout(l) && Has(l, doc)
    && (forall i | 0 <= i < |l.fields| :: WrittenAt(l, doc, body, i))
    && forall f | f in l.fields :: |body| + f.length <= MAX_INT
  }

  /** A field, where it starts, and how many bytes it takes from there. */
  lemma PlaceParts(l: Layout, doc: Document, body: seq<Byte>, i: nat)
    returns (f: Field, at: nat, start: nat, n: nat)
    requires Written(l, doc, body) && i < |l.fields|
    ensures f == l.fields[i] && CheckField(f) && HasField(f, doc) && |body| + f.length <= MAX_INT
    ensures at == EndBefore(l, doc, i) && StartsAt(f, at, start) && start + n == EndBefore(l, doc, i + 1)
    ensures n == BytesFor(f, l.order, doc) && start + n <= |body|
    ensures !f.kind.Skip? ==> body[start..start + n] == EncodeField(f, l.order, doc[f.name])
  {
    f, at, start := l.fields[i], EndBefore(l, doc, i), PlaceOf(l, doc, i);
    n := BytesFor(f, l.order, doc);
    assert f in l.fields && WrittenAt(l, doc, body, i);
  }

  lemma PartIsRead(body: seq<Byte>, f: Field, layout: Order, doc: Document, at: nat, start: nat, n: nat)
    returns (v: Option<Value>)
    requires CheckField(f) && HasField(f, doc) && |body| + f.length <= MAX_INT && StartsAt(f, at, start)
    requires n == BytesFor(f, layout, doc) && start + n <= |body|
    requires !f.kind.Skip? ==> body[start..start + n] == EncodeField(f, layout, doc[f.name])
    ensures v == if f.kind.Skip? then None else Some(doc[f.name])
    ensures ReadField(body, f, layout, at) == Reads(start + n, v)
  {
    if f.kind.Skip? {
      v := None;
    } else {
      v := Some(doc[f.name]);
      FieldIsRead(body, f, layout, doc[f.name], at, start);
    }
  }

  lemma PlaceIsRead(l: Layout, doc: Document, body: seq<Byte>, i: nat) returns (v: Option<Value>)
    requires Written(l, doc, body) && i < |l.fields|
    ensures HasField(l.fields[i], doc)
    ensures v == if l.fields[i].kind.Skip? then None else Some(doc[l.fields[i].name])
    ensures ReadField(body, l.fields[i], l.order, EndBefore(l, doc, i)) == Reads(EndBefore(l, doc, i + 1), v)
  {
    var f, at, start, n := PlaceParts(l, doc, body, i);
    v := PartIsRead(body, f, l.order, doc, at, start, n);
  }

  lemma {:induction false} ReadsFrom(l: Layout, doc: Document, body: seq<Byte>, i: nat, done: Document)
    requires Written(l, doc, body) && i <= |l.fields| && Part(l, i, doc, done)
    ensures Gives(body, l, i, EndBefore(l, doc, i), done, doc)
    decreases |l.fields| - i
  {
    if i == |l.fields| {
      AllDone(l, doc, done);
    } else {
      var v := PlaceIsRead(l, doc, body, i);
      NextPart(l, i, doc, done);
      var done' := DecodeStep(body, l, i, EndBefore(l, doc, i), done, EndBefore(l, doc, i + 1), v);
      ReadsFrom(l, doc, body, i + 1, done');
    }
  }

  /**
   * Whatever the layout, with fields at offsets, ahead, back or over each other: a body that has each of the document's
   * values written at its field's place decodes to the document.
   */
  lemma WrittenIsDecoded(l: Layout, doc: Document, body: seq<Byte>)
    requires Written(l, doc, body)
    ensures Decode(body, l) == Ok(doc)
  {
    ReadsFrom(l, doc, body, 0, map[]);
  }

  lemma TwoNumbersAndOne(body: seq<Byte>, a: Field, b: Field, c: Field)
    requires body == [1, 2, 3, 4] && CheckField(a) && CheckField(b) && CheckField(c)
    requires a.kind == b.kind == U16 && c.kind == U8 && a.count == b.count == c.count == 0
    requires a.offset == c.offset == None && b.offset == Some(1) && a.order == c.order == Unsaid && b.order == Big
    ensures ReadField(body, a, Little, 0) == Reads(2, Some(Int(0x201)))
    ensures ReadField(body, b, Little, 2) == Reads(3, Some(Int(0x203)))
    ensures ReadField(body, c, Little, 3) == Reads(4, Some(Int(4)))
  {
    var x, y, z := BytesOfThem();
    Pow256Values();
    NumberIsRead(body, a, Little, 0x201, 0, 0);
    NumberIsRead(body, b, Little, 0x203, 2, 1);
    NumberIsRead(body, c, Little, 4, 3, 3);
  }

  lemma BytesOfThem() returns (x: seq<Byte>, y: seq<Byte>, z: seq<Byte>)
    ensures x == BytesOf(Unsaid, Little, 0x201, 2) == [1, 2] && y == BytesOf(Big, Little, 0x203, 2) == [2, 3]
    ensures z == BytesOf(Unsaid, Little, 4, 1) == [4]
  {
    assert ToLittle(0x201, 2) == [1] + ToLittle(2, 1) && ToLittle(2, 1) == [2] + ToLittle(0, 0);
    assert ToBig(0x203, 2) == ToBig(2, 1) + [3] && ToBig(2, 1) == ToBig(0, 0) + [2];
    assert ToLittle(4, 1) == [4] + ToLittle(0, 0);
    x, y, z := [1, 2], [2, 3], [4];
  }

  /**
   * A little-endian layout: a number in its order, one back over it at an offset in an order of its own, and one after
   * that.
   */
  lemma BackAtAnOffset(body: seq<Byte>, l: Layout)
    requires body == [1, 2, 3, 4]
    requires l == Layout([Field("a", U16, None, 0, 0, Unsaid), Field("b", U16, Some(1), 0, 0, Big),
                          Field("c", U8, None, 0, 0, Unsaid)], Little)
    ensures CheckLayout(l) && Decode(body, l) == Ok(map["a" := Int(0x201), "b" := Int(0x203), "c" := Int(4)])
  {
    assert forall f | f in l.fields :: CheckField(f);
    assert CheckField(l.fields[0]) && CheckField(l.fields[1]) && CheckField(l.fields[2]);
    TwoNumbersAndOne(body, l.fields[0], l.fields[1], l.fields[2]);
    var d0: Document := map[];
    var d1 := DecodeStep(body, l, 0, 0, d0, 2, Some(Int(0x201)));
    var d2 := DecodeStep(body, l, 1, 2, d1, 3, Some(Int(0x203)));
    var d3 := DecodeStep(body, l, 2, 3, d2, 4, Some(Int(4)));
  }
}
