/**
 How objects become bytes. The coding is a parameter of everything that follows: the results hold for
 every coding under which equal whole encodings mean equal objects, as the 128-bit BLAKE3 identities
 provide. Nothing else about bytes is supposed: different objects may share any of their bytes, one
 object's bytes may stand inside another's, and an object written twice has the same bytes both times.

 A byte is a number. No bound is put on it, since no coding of unboundedly many objects of one size into
 256 values could keep them apart; more values allow every coincidence that 256 do.
 */
module Encodings {
  import opened Options
  import opened Objects

  type Byte = nat

  datatype Coding = Coding(encode: Object -> seq<Byte>, decodeRoot: seq<Byte> -> Option<Object>)

  predicate InSlots(p: nat) { SLOT_BASE <= p < SLOT_BASE + SLOT_COUNT * SLOT_SIZE }

  /** Encodings have their object's size and tell objects apart; root decoding inverts them. */
  ghost predicate Separates(c: Coding) {
    && (forall o :: |c.encode(o)| == SizeOf(o))
    && (forall a, b :: c.encode(a) == c.encode(b) ==> a == b)
    && (forall o: Object :: o.Root? ==> c.decodeRoot(c.encode(o)) == Some(o))
    && (forall bytes :: c.decodeRoot(bytes).Some? ==>
          c.decodeRoot(bytes).value.Root? && c.encode(c.decodeRoot(bytes).value) == bytes)
  }

  /** The control block leaves the root slots zero, and a root starts with a nonzero byte of its magic. */
  ghost predicate Marked(c: Coding) {
    && (forall o: Object :: |c.encode(o)| == SizeOf(o))
    && (forall p: nat :: InSlots(p) ==> c.encode(Control)[p] == 0)
    && (forall o: Object :: o.Root? ==> c.encode(o)[0] != 0)
  }

  ghost predicate Sound(c: Coding) { Separates(c) && Marked(c) }

  // ---- A sound coding exists ----

  function Triangle(n: nat): nat { if n == 0 then 0 else n + Triangle(n - 1) }

  function Pair(a: nat, b: nat): nat { Triangle(a + b) + b }

  lemma {:induction false} TriangleGrows(m: nat, n: nat)
    requires m < n
    ensures Triangle(m) + m < Triangle(n)
  {
    if m + 1 < n {
      TriangleGrows(m, n - 1);
    }
  }

  lemma PairInjective(a: nat, b: nat, x: nat, y: nat)
    requires Pair(a, b) == Pair(x, y)
    ensures a == x && b == y
  {
    if a + b < x + y {
      TriangleGrows(a + b, x + y);
    } else if x + y < a + b {
      TriangleGrows(x + y, a + b);
    }
  }

  function Packed(ns: seq<nat>): (n: nat)
    ensures ns != [] ==> n > 0
  {
    if ns == [] then 0 else 1 + Pair(ns[0], Packed(ns[1..]))
  }

  lemma {:induction false} PackedInjective(a: seq<nat>, b: seq<nat>)
    requires Packed(a) == Packed(b)
    ensures a == b
  {
    if a != [] && b != [] {
      PairInjective(a[0], Packed(a[1..]), b[0], Packed(b[1..]));
      PackedInjective(a[1..], b[1..]);
      assert a == [a[0]] + a[1..] && b == [b[0]] + b[1..];
    }
  }

  function PointNumber(p: Point): nat {
    Pair(if p.timestamp >= 0 then 2 * p.timestamp else -2 * p.timestamp - 1, p.bits)
  }

  lemma PointNumberInjective(p: Point, q: Point)
    requires PointNumber(p) == PointNumber(q)
    ensures p == q
  {
    PairInjective(if p.timestamp >= 0 then 2 * p.timestamp else -2 * p.timestamp - 1, p.bits,
                  if q.timestamp >= 0 then 2 * q.timestamp else -2 * q.timestamp - 1, q.bits);
  }

  /** The fields of an object as numbers, its constructor first. */
  function Fields(o: Object): (ns: seq<nat>)
    ensures ns != []
    decreases o
  {
    match o
    case Control => [0]
    case Page(size, series, points) => [1, size, series] + seq(|points|, i requires 0 <= i < |points| => PointNumber(points[i]))
    case Node(size, tag) => [2, size, tag]
    case Manifest(size, tag, generation, pages) =>
      [3, size, tag, generation] +
      seq(|pages|, i requires 0 <= i < |pages| => Pair(pages[i].offset, Packed(Fields(pages[i].item))))
    case Root(generation, committed, manifestOffset, manifest, previous) =>
      [4, generation, committed, manifestOffset, Packed(Fields(manifest))] +
      if previous.Some? then [Packed(Fields(previous.value))] else []
  }

  lemma PagesInjective(a: Object, b: Object)
    requires a.Page? && b.Page? && Fields(a) == Fields(b)
    ensures a == b
  {
    var m, n := Fields(a), Fields(b);
    assert m[1] == a.size && n[1] == b.size && m[2] == a.series && n[2] == b.series;
    forall i | 0 <= i < |a.points|
      ensures a.points[i] == b.points[i]
    {
      assert m[3 + i] == PointNumber(a.points[i]) && n[3 + i] == PointNumber(b.points[i]);
      PointNumberInjective(a.points[i], b.points[i]);
    }
  }

  lemma {:induction false} FieldsInjective(a: Object, b: Object)
    requires Fields(a) == Fields(b)
    ensures a == b
    decreases a
  {
    hide Pair, Packed;
    var m, n := Fields(a), Fields(b);
    assert m[0] == n[0];
    match a
    case Control =>
    case Page(_, _, _) => PagesInjective(a, b);
    case Node(_, _) => assert m[1] == n[1] && m[2] == n[2];
    case Manifest(_, _, _, pages) =>
      assert m[1] == n[1] && m[2] == n[2] && m[3] == n[3];
      forall i | 0 <= i < |pages|
        ensures pages[i] == b.pages[i]
      {
        assert m[4 + i] == Pair(pages[i].offset, Packed(Fields(pages[i].item)));
        assert n[4 + i] == Pair(b.pages[i].offset, Packed(Fields(b.pages[i].item)));
        PairInjective(pages[i].offset, Packed(Fields(pages[i].item)), b.pages[i].offset, Packed(Fields(b.pages[i].item)));
        PackedInjective(Fields(pages[i].item), Fields(b.pages[i].item));
        FieldsInjective(pages[i].item, b.pages[i].item);
      }
    case Root(_, _, _, manifest, previous) =>
      assert m[1] == n[1] && m[2] == n[2] && m[3] == n[3] && m[4] == n[4];
      PackedInjective(Fields(manifest), Fields(b.manifest));
      FieldsInjective(manifest, b.manifest);
      if previous.Some? {
        assert m[5] == n[5];
        PackedInjective(Fields(previous.value), Fields(b.previous.value));
        FieldsInjective(previous.value, b.previous.value);
      }
  }

  /** All of an object in its first byte, then zeros. */
  function PlainBytes(o: Object): (bytes: seq<Byte>)
    ensures |bytes| == SizeOf(o) && bytes[0] > 0
    ensures forall i :: 1 <= i < |bytes| ==> bytes[i] == 0
  {
    [Packed(Fields(o))] + seq(SizeOf(o) - 1, _ => 0)
  }

  lemma PlainInjective(a: Object, b: Object)
    requires PlainBytes(a) == PlainBytes(b)
    ensures a == b
  {
    hide Packed, Fields;
    assert PlainBytes(a)[0] == Packed(Fields(a)) && PlainBytes(b)[0] == Packed(Fields(b));
    PackedInjective(Fields(a), Fields(b));
    FieldsInjective(a, b);
  }

  ghost function PlainRoot(bytes: seq<Byte>): (r: Option<Object>)
    ensures r.Some? <==> exists o: Object :: o.Root? && PlainBytes(o) == bytes
    ensures r.Some? ==> r.value.Root? && PlainBytes(r.value) == bytes
  {
    if exists o: Object :: o.Root? && PlainBytes(o) == bytes then
      var o: Object :| o.Root? && PlainBytes(o) == bytes;
      Some(o)
    else None
  }

  /** The suppositions about codings can be met. */
  ghost function Plain(): (c: Coding)
    ensures Sound(c) && forall o :: c.encode(o) == PlainBytes(o)
  {
    var c := Coding(PlainBytes, PlainRoot);
    assert Sound(c) by {
      forall a, b | c.encode(a) == c.encode(b)
        ensures a == b
      {
        PlainInjective(a, b);
      }
      forall o: Object | o.Root?
        ensures c.decodeRoot(c.encode(o)) == Some(o)
      {
        PlainInjective(o, PlainRoot(PlainBytes(o)).value);
      }
    }
    c
  }

  type Codec = c: Coding | Sound(c) ghost witness Plain()

  // ---- Reading bytes ----

  /** The whole encoding of `o` stands at `offset`. */
  ghost predicate IntactAt(c: Codec, image: seq<Byte>, offset: nat, o: Object) {
    && offset + SizeOf(o) <= |image|
    && forall p :: offset <= p < offset + SizeOf(o) ==> image[p] == c.encode(o)[p - offset]
  }

  /** The same test, the way a reader makes it: fetch the bytes and compare. */
  predicate ReadsAs(c: Codec, image: seq<Byte>, offset: nat, o: Object)
    ensures ReadsAs(c, image, offset, o) <==> IntactAt(c, image, offset, o)
  {
    if offset + SizeOf(o) > |image| then false
    else
      var found := image[offset..offset + SizeOf(o)];
      assert found == c.encode(o) ==> forall p :: offset <= p < offset + SizeOf(o) ==> image[p] == found[p - offset];
      assert IntactAt(c, image, offset, o) ==> found == c.encode(o);
      found == c.encode(o)
  }

  /** Two objects of one size that stand whole at one place are the same object. */
  lemma IntactIsUnique(c: Codec, image: seq<Byte>, offset: nat, a: Object, b: Object)
    requires SizeOf(a) == SizeOf(b) && IntactAt(c, image, offset, a) && IntactAt(c, image, offset, b)
    ensures a == b
  {
    assert c.encode(a) == image[offset..offset + SizeOf(a)] == c.encode(b);
  }
}
