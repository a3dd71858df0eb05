/**
 The wire format written out type by type, without the levels that the definitions are made of:
 which bytes stand for a value of each type, and which values are refused.
 */
module BorshLayout {
  import opened Wrappers
  import opened ByteStrings
  import opened Borsh
  import opened BorshLaws
  import opened Sequences

  // Numbers

  function Pow256(i: nat): nat {
    if i == 0 then 1 else 256 * Pow256(i - 1)
  }

  lemma PowIsPositive(i: nat)
    ensures Pow256(i) > 0
  {
  }

  lemma MulAtLeast(k: nat, d: nat)
    requires k >= 1
    ensures k * d >= d
  {
    assert k * d == d + (k - 1) * d;
  }

  lemma QuotientIs(x: nat, d: nat, q: nat, a: nat)
    requires d > 0 && x == q * d + a && a < d
    ensures x / d == q
  {
    var q' := x / d;
    assert x == q' * d + x % d;
    if q' > q {
      MulAtLeast(q' - q, d);
    } else if q' < q {
      MulAtLeast(q - q', d);
    }
  }

  lemma DivTwice(v: nat, d: nat)
    requires d > 0
    ensures v / 256 / d == v / (256 * d)
  {
    var q, r := v / (256 * d), v % (256 * d);
    assert v == q * (256 * d) + r;
    assert q * (256 * d) == 256 * (q * d);
    assert v / 256 == q * d + r / 256;
    QuotientIs(q * d + r / 256, d, q, r / 256);
  }

  /** The i-th byte of a number is its i-th digit to the base 256, the lowest first. */
  lemma {:induction false} NumIsLittleEndian(v: nat, n: nat, i: nat)
    requires SerNum(v, n).Some? && i < n
    ensures |SerNum(v, n).value| == n && Pow256(i) > 0 && SerNum(v, n).value[i] == v / Pow256(i) % 256
    decreases n
  {
    NumRoundTrip(v, n);
    PowIsPositive(i);
    if i > 0 {
      NumIsLittleEndian(v / 256, n - 1, i - 1);
      DivTwice(v, Pow256(i - 1));
      assert SerNum(v, n).value == [v % 256] + SerNum(v / 256, n - 1).value;
    }
  }

  /** A number has an encoding in n bytes exactly when it is below 256 to the n. */
  lemma {:induction false} NumFitsIff(v: int, n: nat)
    ensures SerNum(v, n).Some? <==> 0 <= v < Pow256(n)
    decreases n
  {
    if v >= 0 && n > 0 {
      NumFitsIff(v / 256, n - 1);
      assert v / 256 < Pow256(n - 1) <==> v < 256 * Pow256(n - 1);
    }
  }

  lemma NoFields(c: Codec, v: Value, t: FieldType, b: Bytes)
    requires Shape(c, v, t) == Some(Node(b, [], []))
    ensures Ser(c, v, t) == Some(b)
  {
    SerLevel(c, v, t, Node(b, [], []));
    assert Parts(c, [], []) == [] && b + [] == b;
  }

  lemma BoolIs(c: Codec, v: Value)
    ensures Ser(c, v, Bool) == if v.VBool? then Some([if v.b then 1 else 0]) else None
  {
    if v.VBool? {
      OneByte(if v.b then 1 else 0);
      NoFields(c, v, Bool, [if v.b then 1 else 0]);
    }
  }

  /** A type of `bits` bits takes numbers, and a Python bool as 0 or 1. */
  lemma UIntIs(c: Codec, v: Value, bits: nat)
    ensures v.VNum? ==> Ser(c, v, UInt(bits)) == SerNum(v.n, bits / 8)
    ensures v.VBool? ==> Ser(c, v, UInt(bits)) == SerNum(if v.b then 1 else 0, bits / 8)
    ensures !v.VNum? && !v.VBool? ==> Ser(c, v, UInt(bits)).None?
  {
    if v.VNum? || v.VBool? {
      var n := if v.VNum? then v.n else if v.b then 1 else 0;
      if SerNum(n, bits / 8).Some? {
        NoFields(c, v, UInt(bits), SerNum(n, bits / 8).value);
      }
    }
  }

  // Strings and bytes

  lemma StringIs(c: Codec, v: Value)
    ensures !v.VStr? || c.encode(v.s).None? ==> Ser(c, v, Str).None?
    ensures v.VStr? && c.encode(v.s).Some? ==>
      var b, len := c.encode(v.s).value, SerNum(|c.encode(v.s).value|, 4);
      Ser(c, v, Str) == if len.Some? then Some(len.value + b) else None
  {
    if v.VStr? && c.encode(v.s).Some? && SerNum(|c.encode(v.s).value|, 4).Some? {
      NoFields(c, v, Str, SerNum(|c.encode(v.s).value|, 4).value + c.encode(v.s).value);
    }
  }

  lemma FixedBytesIs(c: Codec, v: Value, len: nat)
    ensures Ser(c, v, FixedBytes(len)) == if v.VBytes? && |v.bytes| == len then Some(v.bytes) else None
  {
    if v.VBytes? && |v.bytes| == len {
      NoFields(c, v, FixedBytes(len), v.bytes);
    }
  }

  // Sequences

  /** The values are written as these byte strings, one each. */
  ghost predicate AreWritten(c: Codec, values: seq<Value>, types: seq<FieldType>, bs: seq<Bytes>) {
    |values| == |types| == |bs| && forall i :: 0 <= i < |bs| ==> Ser(c, values[i], types[i]) == Some(bs[i])
  }

  lemma {:induction false} CollectIsFlat(parts: seq<Option<Bytes>>, bs: seq<Bytes>)
    requires |parts| == |bs| && forall i :: 0 <= i < |bs| ==> parts[i] == Some(bs[i])
    ensures Collect(parts) == Some(Flat(bs))
  {
    if bs != [] {
      CollectIsFlat(parts[1..], bs[1..]);
    }
  }

  lemma {:induction false} CollectFails(parts: seq<Option<Bytes>>, i: nat)
    requires i < |parts| && parts[i].None?
    ensures Collect(parts).None?
  {
    if i > 0 {
      CollectFails(parts[1..], i - 1);
    }
  }

  lemma LevelIs(c: Codec, v: Value, t: FieldType, node: Node, bs: seq<Bytes>)
    requires Shape(c, v, t) == Some(node) && AreWritten(c, node.values, node.types, bs)
    ensures Ser(c, v, t) == Some(node.prefix + Flat(bs))
  {
    hide Ser, Shape, Collect, Flat;
    SerLevel(c, v, t, node);
    CollectIsFlat(Parts(c, node.values, node.types), bs);
  }

  lemma LevelFails(c: Codec, v: Value, t: FieldType, node: Node, i: nat)
    requires Shape(c, v, t) == Some(node) && i < |node.values| && Ser(c, node.values[i], node.types[i]).None?
    ensures Ser(c, v, t).None?
  {
    hide Ser, Shape, Collect;
    SerLevel(c, v, t, node);
    CollectFails(Parts(c, node.values, node.types), i);
  }

  /** A list, or a tuple given for one: the number of elements, then the elements in order. */
  lemma ListIs(c: Codec, v: Value, elem: FieldType, bs: seq<Bytes>)
    requires (v.VList? || v.VTuple?) && AreWritten(c, v.items, Repeat(elem, |v.items|), bs)
    ensures var len := SerNum(|v.items|, 4);
            Ser(c, v, List(elem)) == if len.Some? then Some(len.value + Flat(bs)) else None
  {
    var len := SerNum(|v.items|, 4);
    if len.Some? {
      LevelIs(c, v, List(elem), Node(len.value, v.items, Repeat(elem, |v.items|)), bs);
    }
  }

  lemma ListFails(c: Codec, v: Value, elem: FieldType, i: nat)
    requires (v.VList? || v.VTuple?) && i < |v.items| && Ser(c, v.items[i], elem).None?
    ensures Ser(c, v, List(elem)).None?
  {
    var len := SerNum(|v.items|, 4);
    if len.Some? {
      LevelFails(c, v, List(elem), Node(len.value, v.items, Repeat(elem, |v.items|)), i);
    }
  }

  /** A tuple, or a list given for one: the elements in order, each by its own type. */
  lemma TupleIs(c: Codec, v: Value, ts: seq<FieldType>, bs: seq<Bytes>)
    requires (v.VList? || v.VTuple?) && ts != [] && AreWritten(c, v.items, ts, bs)
    ensures Ser(c, v, Tuple(ts)) == Some(Flat(bs))
  {
    LevelIs(c, v, Tuple(ts), Node([], v.items, ts), bs);
    assert [] + Flat(bs) == Flat(bs);
  }

  lemma NoShapeFails(c: Codec, v: Value, t: FieldType)
    requires Shape(c, v, t).None?
    ensures Ser(c, v, t).None?
  {
  }

  lemma TupleFails(c: Codec, v: Value, ts: seq<FieldType>)
    requires ts != [] && (v.VList? || v.VTuple?)
    requires |v.items| != |ts| || exists i :: 0 <= i < |ts| && Ser(c, v.items[i], ts[i]).None?
    ensures Ser(c, v, Tuple(ts)).None?
  {
    hide Ser;
    if |v.items| == |ts| {
      var i :| 0 <= i < |ts| && Ser(c, v.items[i], ts[i]).None?;
      LevelFails(c, v, Tuple(ts), Node([], v.items, ts), i);
    } else {
      NoShapeFails(c, v, Tuple(ts));
    }
  }

  /** The empty tuple writes nothing, whatever the value. */
  lemma EmptyTupleIs(c: Codec, v: Value)
    ensures Ser(c, v, Tuple([])) == Some([])
  {
    NoFields(c, v, Tuple([]), []);
  }

  function Singles(b: Bytes): (r: seq<Bytes>)
    ensures |r| == |b| && forall i :: 0 <= i < |b| ==> r[i] == [b[i]]
  {
    seq(|b|, i requires 0 <= i < |b| => [b[i]])
  }

  lemma {:induction false} FlatSingles(b: Bytes)
    ensures Flat(Singles(b)) == b
  {
    if b != [] {
      FlatSingles(b[1..]);
      assert Singles(b)[1..] == Singles(b[1..]);
      assert b == [b[0]] + b[1..];
    }
  }

  function Numbers(b: Bytes): (r: seq<Value>)
    ensures |r| == |b| && forall i :: 0 <= i < |b| ==> r[i] == VNum(b[i])
  {
    seq(|b|, i requires 0 <= i < |b| => VNum(b[i]))
  }

  /** A list of the numbers of a byte string is written like the byte string itself. */
  lemma ByteListIs(c: Codec, b: Bytes)
    ensures var len := SerNum(|b|, 4);
            Ser(c, VList(Numbers(b)), List(UInt(8))) == if len.Some? then Some(len.value + b) else None
  {
    hide Ser, Flat;
    var values, types := Numbers(b), Repeat(UInt(8), |b|);
    forall i | 0 <= i < |b|
      ensures Ser(c, values[i], types[i]) == Some([b[i]])
    {
      UIntIs(c, values[i], 8);
      OneByte(b[i]);
    }
    ListIs(c, VList(values), UInt(8), Singles(b));
    FlatSingles(b);
  }

  /** Bytes given for a list of numbers: the length, then the bytes in order. */
  lemma BytesAsListIs(c: Codec, b: Bytes)
    ensures var len := SerNum(|b|, 4);
            Ser(c, VBytes(b), List(UInt(8))) == if len.Some? then Some(len.value + b) else None
  {
    hide Ser, Flat;
    var len := SerNum(|b|, 4);
    if len.Some? {
      var values, types := Numbers(b), Repeat(UInt(8), |b|);
      forall i | 0 <= i < |b|
        ensures Ser(c, values[i], types[i]) == Some([b[i]])
      {
        UIntIs(c, values[i], 8);
        OneByte(b[i]);
      }
      assert Items(VBytes(b)).value == values;
      LevelIs(c, VBytes(b), List(UInt(8)), Node(len.value, values, types), Singles(b));
      FlatSingles(b);
    } else {
      NoShapeFails(c, VBytes(b), List(UInt(8)));
    }
  }

  function Letters(s: string): (r: seq<Value>)
    ensures |r| == |s| && forall i :: 0 <= i < |s| ==> r[i] == VStr([s[i]])
  {
    seq(|s|, i requires 0 <= i < |s| => VStr([s[i]]))
  }

  ghost predicate IsSequenceType(t: FieldType) {
    t.List? || (t.Tuple? && t.elems != [])
  }

  lemma SameShape(c: Codec, v: Value, w: Value, t: FieldType)
    requires Shape(c, v, t) == Shape(c, w, t)
    ensures Ser(c, v, t) == Ser(c, w, t)
  {
    if Shape(c, v, t).Some? {
      SerLevel(c, v, t, Shape(c, v, t).value);
      SerLevel(c, w, t, Shape(c, w, t).value);
    }
  }

  /** For lists and tuples of any types: bytes count as the list of their numbers, a string as that of its letters. */
  lemma LoopedOver(c: Codec, t: FieldType, b: Bytes, s: string)
    requires IsSequenceType(t)
    ensures Ser(c, VBytes(b), t) == Ser(c, VList(Numbers(b)), t)
    ensures Ser(c, VStr(s), t) == Ser(c, VList(Letters(s)), t)
  {
    assert Items(VBytes(b)).value == Numbers(b) && Items(VStr(s)).value == Letters(s);
    SameShape(c, VBytes(b), VList(Numbers(b)), t);
    SameShape(c, VStr(s), VList(Letters(s)), t);
  }

  /** What has no length is refused as a list or a tuple, and an object by any class but its own. */
  lemma RefusedIs(c: Codec, v: Value, t: FieldType)
    ensures IsSequenceType(t) && (v.VNone? || v.VBool? || v.VNum? || v.VObj?) ==> Ser(c, v, t).None?
    ensures t.Class? && (!v.VObj? || v.cls != t.name || v.cls !in c.schema || c.schema[v.cls].Malformed?) ==>
              Ser(c, v, t).None?
    ensures t.Unsupported? ==> Ser(c, v, t).None?
  {
    if Shape(c, v, t).None? {
      NoShapeFails(c, v, t);
    }
  }

  // Options and objects

  lemma OptionIs(c: Codec, v: Value, inner: FieldType)
    ensures Ser(c, VNone, Opt(inner)) == Some([0])
    ensures v != VNone ==>
      Ser(c, v, Opt(inner)) == if Ser(c, v, inner).Some? then Some([1] + Ser(c, v, inner).value) else None
  {
    NoFields(c, VNone, Opt(inner), [0]);
    if v != VNone {
      if Ser(c, v, inner).Some? {
        LevelIs(c, v, Opt(inner), Node([1], [v], [inner]), [Ser(c, v, inner).value]);
        FlatOne(Ser(c, v, inner).value);
      } else {
        LevelFails(c, v, Opt(inner), Node([1], [v], [inner]), 0);
      }
    }
  }

  /** A struct: the attributes named by its schema, in the order of the schema. */
  lemma StructIs(c: Codec, v: Value, fields: seq<Field>, bs: seq<Bytes>)
    requires v.VObj? && v.cls in c.schema && c.schema[v.cls] == Struct(fields) && |bs| == |fields|
    requires forall i :: 0 <= i < |fields| ==>
      fields[i].name in v.attrs && Ser(c, v.attrs[fields[i].name], fields[i].ty) == Some(bs[i])
    ensures Ser(c, v, Class(v.cls)) == Some(Flat(bs))
  {
    hide Ser, Flat;
    var values := seq(|fields|, i requires 0 <= i < |fields| => v.attrs[fields[i].name]);
    LevelIs(c, v, Class(v.cls), Node([], values, FieldTypes(fields)), bs);
    assert [] + Flat(bs) == Flat(bs);
  }

  lemma StructFails(c: Codec, v: Value, fields: seq<Field>, i: nat)
    requires v.VObj? && v.cls in c.schema && c.schema[v.cls] == Struct(fields) && i < |fields|
    requires fields[i].name in v.attrs ==> Ser(c, v.attrs[fields[i].name], fields[i].ty).None?
    ensures Ser(c, v, Class(v.cls)).None?
  {
    hide Ser;
    if HasAttrs(v, fields) {
      var values := seq(|fields|, i requires 0 <= i < |fields| => v.attrs[fields[i].name]);
      LevelFails(c, v, Class(v.cls), Node([], values, FieldTypes(fields)), i);
    } else {
      NoShapeFails(c, v, Class(v.cls));
    }
  }

  lemma {:induction false} FirstVariant(variants: seq<Variant>, i: nat)
    requires i < |variants| && variants[i].Variant?
    requires forall j :: 0 <= j < i ==> variants[j].Variant? && variants[j].name != variants[i].name
    ensures FindVariant(variants, variants[i].name) == Some(i)
  {
    if i > 0 {
      FirstVariant(variants[1..], i - 1);
    }
  }

  /** An enum: the position of the variant, then the attribute that carries its name. */
  lemma EnumIs(c: Codec, v: Value, field: string, variants: seq<Variant>, i: nat, ty: FieldType)
    requires v.VObj? && v.cls in c.schema && c.schema[v.cls] == Enum(field, variants)
    requires i < |variants| && i < 256 && variants[i].Variant? && variants[i].ty == Some(ty)
    requires forall j :: 0 <= j < i ==> variants[j].Variant? && variants[j].name != variants[i].name
    requires field in v.attrs && v.attrs[field] == VStr(variants[i].name) && variants[i].name in v.attrs
    ensures var payload := Ser(c, v.attrs[variants[i].name], ty);
            Ser(c, v, Class(v.cls)) == if payload.Some? then Some([i] + payload.value) else None
  {
    hide Ser;
    FirstVariant(variants, i);
    OneByte(i);
    var value := v.attrs[variants[i].name];
    var node := Node([i], [value], [ty]);
    var payload := Ser(c, value, ty);
    if payload.Some? {
      LevelIs(c, v, Class(v.cls), node, [payload.value]);
      FlatOne(payload.value);
    } else {
      LevelFails(c, v, Class(v.cls), node, 0);
    }
  }

  // What is read back where it differs from what was written

  lemma NumberIsTyped(c: Codec, n: Byte)
    ensures HasType(c, VNum(n), UInt(8)) && Nesting(c, VNum(n), UInt(8)) == 0
  {
    OneByte(n);
  }

  lemma NumbersAreTyped(c: Codec, b: Bytes)
    requires SerNum(|b|, 4).Some?
    ensures HasType(c, VList(Numbers(b)), List(UInt(8))) && Nesting(c, VList(Numbers(b)), List(UInt(8))) == 0
  {
    var v, t := VList(Numbers(b)), List(UInt(8));
    var node := Shape(c, v, t).value;
    forall i | 0 <= i < |b|
      ensures HasType(c, node.values[i], node.types[i]) && Nesting(c, node.values[i], node.types[i]) == 0
    {
      NumberIsTyped(c, b[i]);
    }
    MaxOfZeros(seq(|node.values|, i requires 0 <= i < |node.values| => Nesting(c, node.values[i], node.types[i])));
  }

  /** Bytes written as a list of numbers are read back as that list, in order. */
  lemma BytesReadAsList(c: Codec, b: Bytes, pre: Bytes, post: Bytes, depth: nat)
    requires IsUtf8(c) && SerNum(|b|, 4).Some?
    ensures var w := SerNum(|b|, 4).value + b;
            De(c, pre + w + post, |pre|, List(UInt(8)), depth) == Some((VList(Numbers(b)), |pre| + |w|))
  {
    hide Ser, De, SerNum, IsUtf8;
    var v, t := VList(Numbers(b)), List(UInt(8));
    ByteListIs(c, b);
    NumbersAreTyped(c, b);
    TypedRoundTrip(c, v, t, pre, post, depth);
  }

  /** A bool written as a number is read back as 0 or 1. */
  lemma BoolReadAsNumber(c: Codec, b: bool, bits: nat, pre: Bytes, post: Bytes, depth: nat)
    requires IsUtf8(c) && Ser(c, VBool(b), UInt(bits)).Some?
    ensures var w := Ser(c, VBool(b), UInt(bits)).value;
            De(c, pre + w + post, |pre|, UInt(bits), depth) == Some((VNum(if b then 1 else 0), |pre| + |w|))
  {
    var n := if b then 1 else 0;
    UIntIs(c, VBool(b), bits);
    UIntIs(c, VNum(n), bits);
    hide Ser, De, SerNum, IsUtf8;
    assert HasType(c, VNum(n), UInt(bits)) && Nesting(c, VNum(n), UInt(bits)) == 0;
    TypedRoundTrip(c, VNum(n), UInt(bits), pre, post, depth);
  }

  /** A list of well-typed values given for a tuple is read back as the tuple of these values. */
  lemma ListReadAsTuple(c: Codec, items: seq<Value>, ts: seq<FieldType>, pre: Bytes, post: Bytes, depth: nat)
    requires IsUtf8(c) && ts != [] && HasType(c, VTuple(items), Tuple(ts))
    requires depth >= Nesting(c, VTuple(items), Tuple(ts))
    ensures Ser(c, VList(items), Tuple(ts)).Some? && Ser(c, VList(items), Tuple(ts)) == Ser(c, VTuple(items), Tuple(ts))
    ensures var w := Ser(c, VList(items), Tuple(ts)).value;
            De(c, pre + w + post, |pre|, Tuple(ts), depth) == Some((VTuple(items), |pre| + |w|))
  {
    SameShape(c, VList(items), VTuple(items), Tuple(ts));
    hide Ser, De, Shape, HasType, Nesting, IsUtf8;
    TypedRoundTrip(c, VTuple(items), Tuple(ts), pre, post, depth);
  }
}
