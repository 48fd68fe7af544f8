/**
 * The per-sprite instance record (`SpriteInstance`) and its explicit
 * 64-byte layout, which the vertex shader reads positionally.
 */
module InstanceLayout {
  import opened Numerics

  datatype SpriteInstance = SpriteInstance(
    position: Vector3,
    rotation: Float,
    scale: Vector2,
    texU: Float,
    texV: Float,
    texW: Float,
    texH: Float,
    color: Vector4)

  /** Size of one record in bytes, and the stride between records. */
  const STRIDE: nat := 64

  datatype Field = Position | Rotation | Scale | TexU | TexV | TexW | TexH | Color

  /** Byte offset of each field inside the record. */
  function Offset(f: Field): nat
  {
    match f
    case Position => 0
    case Rotation => 12
    case Scale => 16
    case TexU => 24
    case TexV => 28
    case TexW => 32
    case TexH => 36
    case Color => 48
  }

  /** Byte size of each field: three, one, two, one, one, one, one and four floats. */
  function Size(f: Field): nat
  {
    match f
    case Position => 12
    case Scale => 8
    case Color => 16
    case _ => 4
  }

  function End(f: Field): nat
  {
    Offset(f) + Size(f)
  }

  /** Byte `b` of a record belongs to field `f`. */
  predicate InField(b: int, f: Field)
  {
    Offset(f) <= b < End(f)
  }

  /** No byte belongs to two fields. */
  lemma FieldsDisjoint(f: Field, g: Field, b: int)
    requires f != g
    ensures !(InField(b, f) && InField(b, g))
  {
  }

  /** Every field lies inside the record. */
  lemma FieldsWithinStride(f: Field)
    ensures 0 <= Offset(f) && End(f) <= STRIDE
  {
  }

  /** Bytes 40 to 47 are padding: they, and only they, belong to no field. */
  lemma PaddingIsUnowned(b: int)
    requires 0 <= b < STRIDE
    ensures (exists f :: InField(b, f)) <==> !(40 <= b < 48)
  {
    if b < 12 {
      assert InField(b, Position);
    } else if b < 16 {
      assert InField(b, Rotation);
    } else if b < 24 {
      assert InField(b, Scale);
    } else if b < 28 {
      assert InField(b, TexU);
    } else if b < 32 {
      assert InField(b, TexV);
    } else if b < 36 {
      assert InField(b, TexW);
    } else if b < 40 {
      assert InField(b, TexH);
    } else if b >= 48 {
      assert InField(b, Color);
    }
  }

  /** The floats of a field, in component order. */
  function FieldFloats(inst: SpriteInstance, f: Field): (r: seq<Float>)
    ensures 4 * |r| == Size(f)
  {
    match f
    case Position => [inst.position.x, inst.position.y, inst.position.z]
    case Rotation => [inst.rotation]
    case Scale => [inst.scale.x, inst.scale.y]
    case TexU => [inst.texU]
    case TexV => [inst.texV]
    case TexW => [inst.texW]
    case TexH => [inst.texH]
    case Color => [inst.color.x, inst.color.y, inst.color.z, inst.color.w]
  }

  /** The bytes a field occupies: the images of its floats, one after another. */
  function FieldBytes(inst: SpriteInstance, f: Field): (r: seq<bv8>)
    ensures |r| == Size(f)
  {
    match f
    case Position => FloatBytes(inst.position.x) + FloatBytes(inst.position.y) + FloatBytes(inst.position.z)
    case Rotation => FloatBytes(inst.rotation)
    case Scale => FloatBytes(inst.scale.x) + FloatBytes(inst.scale.y)
    case TexU => FloatBytes(inst.texU)
    case TexV => FloatBytes(inst.texV)
    case TexW => FloatBytes(inst.texW)
    case TexH => FloatBytes(inst.texH)
    case Color => FloatBytes(inst.color.x) + FloatBytes(inst.color.y) + FloatBytes(inst.color.z) + FloatBytes(inst.color.w)
  }

  /** The four bytes `4j` to `4j + 3` of a field make up its component `j`. */
  lemma FloatOfField(inst: SpriteInstance, f: Field, j: nat)
    requires 4 * j < Size(f)
    ensures var bs := FieldBytes(inst, f);
      Float(bs[4 * j], bs[4 * j + 1], bs[4 * j + 2], bs[4 * j + 3]) == FieldFloats(inst, f)[j]
  {
    if j == 0 {
      match f
      case Position =>
      case Rotation =>
      case Scale =>
      case TexU =>
      case TexV =>
      case TexW =>
      case TexH =>
      case Color =>
    } else if j == 1 {
      match f
      case Position =>
      case Scale =>
      case Color =>
    } else if j == 2 {
      match f
      case Position =>
      case Color =>
    } else {
      assert f == Color;
    }
  }

  /**
   * The 64-byte image of a record as it lies in the staging buffer.  The
   * record writer never touches the padding, so its eight bytes are whatever
   * the buffer held: they are a parameter here.
   */
  function Encode(inst: SpriteInstance, padding: seq<bv8>): (r: seq<bv8>)
    requires |padding| == 8
    ensures |r| == STRIDE
  {
    FieldBytes(inst, Position) + FieldBytes(inst, Rotation) + FieldBytes(inst, Scale)
      + FieldBytes(inst, TexU) + FieldBytes(inst, TexV) + FieldBytes(inst, TexW) + FieldBytes(inst, TexH)
      + padding + FieldBytes(inst, Color)
  }

  /** In the image, each field's bytes sit at its documented offset. */
  lemma EncodePlacesField(inst: SpriteInstance, padding: seq<bv8>, f: Field)
    requires |padding| == 8
    ensures Encode(inst, padding)[Offset(f)..End(f)] == FieldBytes(inst, f)
  {
    var r := Encode(inst, padding);
    match f
    case Position => assert r[0..12] == FieldBytes(inst, Position);
    case Rotation => assert r[12..16] == FieldBytes(inst, Rotation);
    case Scale => assert r[16..24] == FieldBytes(inst, Scale);
    case TexU => assert r[24..28] == FieldBytes(inst, TexU);
    case TexV => assert r[28..32] == FieldBytes(inst, TexV);
    case TexW => assert r[32..36] == FieldBytes(inst, TexW);
    case TexH => assert r[36..40] == FieldBytes(inst, TexH);
    case Color => assert r[48..64] == FieldBytes(inst, Color);
  }

  /** The padding bytes of the image are the ones the buffer held. */
  lemma EncodeKeepsPadding(inst: SpriteInstance, padding: seq<bv8>)
    requires |padding| == 8
    ensures Encode(inst, padding)[40..48] == padding
  {
  }

  /** Byte `Offset(f) + i` of the image is byte `i` of field `f`. */
  lemma EncodedByte(inst: SpriteInstance, padding: seq<bv8>, f: Field, i: nat)
    requires |padding| == 8 && i < Size(f)
    ensures Encode(inst, padding)[Offset(f) + i] == FieldBytes(inst, f)[i]
  {
    EncodePlacesField(inst, padding, f);
    assert Encode(inst, padding)[Offset(f)..End(f)][i] == Encode(inst, padding)[Offset(f) + i];
  }

  /** The float at byte offset `Offset(f) + 4 * j` of a record image: component `j` of field `f`. */
  function FloatIn(b: seq<bv8>, f: Field, j: nat): Float
    requires |b| == STRIDE && 4 * j < Size(f)
  {
    var at := Offset(f) + 4 * j;
    Float(b[at], b[at + 1], b[at + 2], b[at + 3])
  }

  /** Reads a record back from its 64-byte image, each field from its offset. */
  function Decode(b: seq<bv8>): SpriteInstance
    requires |b| == STRIDE
  {
    SpriteInstance(
      Vector3(FloatIn(b, Position, 0), FloatIn(b, Position, 1), FloatIn(b, Position, 2)),
      FloatIn(b, Rotation, 0),
      Vector2(FloatIn(b, Scale, 0), FloatIn(b, Scale, 1)),
      FloatIn(b, TexU, 0),
      FloatIn(b, TexV, 0),
      FloatIn(b, TexW, 0),
      FloatIn(b, TexH, 0),
      Vector4(FloatIn(b, Color, 0), FloatIn(b, Color, 1), FloatIn(b, Color, 2), FloatIn(b, Color, 3)))
  }

  /** When an image holds `fb` at field `f`, the float at component `j` is made of bytes `4j` to `4j + 3` of `fb`. */
  lemma FloatInSlice(b: seq<bv8>, fb: seq<bv8>, f: Field, j: nat)
    requires |b| == STRIDE && 4 * j < Size(f)
    requires b[Offset(f)..End(f)] == fb
    ensures FloatIn(b, f, j) == Float(fb[4 * j], fb[4 * j + 1], fb[4 * j + 2], fb[4 * j + 3])
  {
    var at := Offset(f) + 4 * j;
    assert fb[4 * j] == b[Offset(f)..End(f)][4 * j] == b[at];
    assert fb[4 * j + 1] == b[Offset(f)..End(f)][4 * j + 1] == b[at + 1];
    assert fb[4 * j + 2] == b[Offset(f)..End(f)][4 * j + 2] == b[at + 2];
    assert fb[4 * j + 3] == b[Offset(f)..End(f)][4 * j + 3] == b[at + 3];
  }

  /** The image of `inst` holds component `j` of field `f` at byte offset `Offset(f) + 4 * j`. */
  lemma FloatInEncode(inst: SpriteInstance, padding: seq<bv8>, f: Field, j: nat)
    requires |padding| == 8 && 4 * j < Size(f)
    ensures FloatIn(Encode(inst, padding), f, j) == FieldFloats(inst, f)[j]
  {
    EncodePlacesField(inst, padding, f);
    FloatInSlice(Encode(inst, padding), FieldBytes(inst, f), f, j);
    FloatOfField(inst, f, j);
  }

  /** An image whose every field holds the floats of `inst` decodes to `inst`. */
  lemma DecodeFromFields(b: seq<bv8>, inst: SpriteInstance)
    requires |b| == STRIDE
    requires forall f: Field, j: nat :: 4 * j < Size(f) ==> FloatIn(b, f, j) == FieldFloats(inst, f)[j]
    ensures Decode(b) == inst
  {
    assert FloatIn(b, Position, 0) == inst.position.x;
    assert FloatIn(b, Position, 1) == inst.position.y;
    assert FloatIn(b, Position, 2) == inst.position.z;
    assert FloatIn(b, Scale, 1) == inst.scale.y;
    assert FloatIn(b, Color, 1) == inst.color.y;
    assert FloatIn(b, Color, 2) == inst.color.z;
    assert FloatIn(b, Color, 3) == inst.color.w;
  }

  /** Reading the staged image of a record gives back every field written, whatever the padding. */
  lemma DecodeEncode(inst: SpriteInstance, padding: seq<bv8>)
    requires |padding| == 8
    ensures Decode(Encode(inst, padding)) == inst
  {
    var b := Encode(inst, padding);
    forall f: Field, j: nat | 4 * j < Size(f)
      ensures FloatIn(b, f, j) == FieldFloats(inst, f)[j]
    {
      FloatInEncode(inst, padding, f, j);
    }
    DecodeFromFields(b, inst);
  }

  /** Component `j` of field `f` of a decoded record is the float read at its offset. */
  lemma FieldOfDecode(b: seq<bv8>, f: Field, j: nat)
    requires |b| == STRIDE && 4 * j < Size(f)
    ensures FieldFloats(Decode(b), f)[j] == FloatIn(b, f, j)
  {
    match f
    case Position =>
    case Rotation =>
    case Scale =>
    case TexU =>
    case TexV =>
    case TexW =>
    case TexH =>
    case Color =>
  }

  /** Byte `i` of field `f` of the record decoded from `b` is byte `Offset(f) + i` of `b`. */
  lemma FieldByteOfDecode(b: seq<bv8>, f: Field, i: nat)
    requires |b| == STRIDE && i < Size(f)
    ensures FieldBytes(Decode(b), f)[i] == b[Offset(f) + i]
  {
    var j := if i < 4 then 0 else if i < 8 then 1 else if i < 12 then 2 else 3;
    var at := Offset(f) + 4 * j;
    var bs := FieldBytes(Decode(b), f);
    FloatOfField(Decode(b), f, j);
    FieldOfDecode(b, f, j);
    assert Float(bs[4 * j], bs[4 * j + 1], bs[4 * j + 2], bs[4 * j + 3])
      == Float(b[at], b[at + 1], b[at + 2], b[at + 3]);
    if i == 4 * j {
      assert bs[4 * j] == b[at];
    } else if i == 4 * j + 1 {
      assert bs[4 * j + 1] == b[at + 1];
    } else if i == 4 * j + 2 {
      assert bs[4 * j + 2] == b[at + 2];
    } else {
      assert bs[4 * j + 3] == b[at + 3];
    }
  }

  /** Every 64-byte image is the encoding of the record it decodes to, with its own padding. */
  lemma EncodeDecode(b: seq<bv8>)
    requires |b| == STRIDE
    ensures Encode(Decode(b), b[40..48]) == b
  {
    var r := Encode(Decode(b), b[40..48]);
    forall i | 0 <= i < STRIDE
      ensures r[i] == b[i]
    {
      if 40 <= i < 48 {
        EncodeKeepsPadding(Decode(b), b[40..48]);
        assert r[40..48][i - 40] == r[i];
      } else {
        PaddingIsUnowned(i);
        var f :| InField(i, f);
        EncodedByte(Decode(b), b[40..48], f, i - Offset(f));
        FieldByteOfDecode(b, f, i - Offset(f));
      }
    }
  }
}
