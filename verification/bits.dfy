/**
 * Bit fields of 8-bit registers, least-significant bit first, as the
 * register structs of the driver declare them: every register struct is one
 * byte whose named fields are consecutive bit ranges starting at bit 0, and
 * a setter replaces exactly the bits of its field.
 */
module Bits {

  /** One register byte. */
  type byte = bv8

  /** The byte whose value is `n`, counted up from zero. */
  function ByteOf(n: nat): (b: byte)
    requires n < 256
    ensures b as nat == n
  {
    if n == 0 then 0 else IncValue(ByteOf(n - 1)); ByteOf(n - 1) + 1
  }

  /** Adding one to a byte below 255 adds one to its value. */
  lemma IncValue(x: byte)
    requires x as nat < 255
    ensures (x + 1) as nat == x as nat + 1
  {
  }

  /** A byte's value is at most 255. */
  lemma ByteRange(x: byte)
    ensures x as nat <= 255
  {
  }

  /** A field of `width` bits whose lowest bit is bit `lo`. */
  datatype FieldDesc = FieldDesc(lo: bv8, width: bv8)

  /** A field that lies inside one byte. */
  type Field = f: FieldDesc | 1 <= f.width <= 8 && f.lo <= 8 - f.width witness FieldDesc(0, 1)

  /** The largest value a field of `width` bits can hold: `width` ones. */
  function Ones(width: bv8): byte
    requires 1 <= width <= 8
  {
    (1 << width) - 1
  }

  /** The bits of a byte that belong to field `f`. */
  function Mask(f: Field): byte
  {
    Ones(f.width) << f.lo
  }

  /** Value `v` is representable in field `f`; the bitfield setters reject any other. */
  predicate Fits(f: Field, v: byte)
  {
    v <= Ones(f.width)
  }

  /** Two fields share no bit. */
  predicate Disjoint(f: Field, g: Field)
  {
    Mask(f) & Mask(g) == 0
  }

  /** The value held by field `f` of byte `b`; it depends on the field's bits only. */
  function Get(b: byte, f: Field): (v: byte)
    ensures Fits(f, v)
  {
    (b & Mask(f)) >> f.lo
  }

  /**
   * Byte `b` with field `f` replaced by `v` (the read-modify-write setter);
   * bits of `v` above the field's width are dropped.
   */
  function Set(b: byte, f: Field, v: byte): (r: byte)
    ensures r & !Mask(f) == b & !Mask(f)
  {
    (b & !Mask(f)) | ((v & Ones(f.width)) << f.lo)
  }

  /** Reading a field back after setting it yields the value set. */
  lemma GetSetSame(b: byte, f: Field, v: byte)
    requires Fits(f, v)
    ensures Get(Set(b, f, v), f) == v
  {
  }

  /** Setting one field leaves every field disjoint from it as it was. */
  lemma GetSetOther(b: byte, f: Field, v: byte, g: Field)
    requires Disjoint(f, g)
    ensures Get(Set(b, f, v), g) == Get(b, g)
  {
    MaskedAgree(Set(b, f, v), b, f, g);
  }

  /** Two bytes that agree outside field `f` agree on every field disjoint from `f`. */
  lemma MaskedAgree(a: byte, b: byte, f: Field, g: Field)
    requires a & !Mask(f) == b & !Mask(f)
    requires Disjoint(f, g)
    ensures Get(a, g) == Get(b, g)
  {
    AgreeInside(a, b, Mask(f), Mask(g));
  }

  /** Bytes that agree outside mask `m` agree inside every mask `n` disjoint from `m`. */
  lemma AgreeInside(a: byte, b: byte, m: byte, n: byte)
    requires a & !m == b & !m && m & n == 0
    ensures a & n == b & n
  {
  }

  /**
   * A register layout: its fields, read-only padding included, listed from
   * bit 0 upwards, cover the byte without gap or overlap.
   */
  predicate Tiles(layout: seq<Field>)
  {
    && |layout| > 0
    && layout[0].lo == 0
    && (forall i :: 0 < i < |layout| ==> layout[i].lo == layout[i - 1].lo + layout[i - 1].width)
    && layout[|layout| - 1].lo + layout[|layout| - 1].width == 8
  }
}
