/**
 The schema-driven Borsh format of the Python test library: what is written for a value of a
 field type, and what is read back.

 Writing is described level by level: `Shape` gives the bytes a value writes itself and the
 fields it hands on.  Reading mirrors it: `Head` consumes the bytes of one level and plans
 which fields follow.  Python's assertion failures and other exceptions are None.
 */
module Borsh {
  import opened Wrappers
  import opened ByteStrings

  datatype FieldType =
    | Tuple(elems: seq<FieldType>)
    | Bool
    | UInt(bits: nat)
    | Str
    | FixedBytes(len: nat)
    | List(elem: FieldType)
    | Opt(inner: FieldType)
    | Class(name: string)
    | Unsupported

  datatype Field = Field(name: string, ty: FieldType)

  /** An entry of an enum's `values`: it may be None, and its type may be None. */
  datatype Variant = Variant(name: string, ty: Option<FieldType>) | NoVariant

  datatype ClassSchema = Struct(fields: seq<Field>) | Enum(field: string, variants: seq<Variant>) | Malformed

  /** The schema, and UTF-8 as a pair of partial functions. */
  datatype Codec = Codec(schema: map<string, ClassSchema>, encode: string -> Option<Bytes>,
      decode: Bytes -> Option<string>)

  datatype Value =
    | VNone
    | VBool(b: bool)
    | VNum(n: int)
    | VStr(s: string)
    | VBytes(bytes: Bytes)
    | VTuple(items: seq<Value>)
    | VList(items: seq<Value>)
    | VObj(cls: string, attrs: map<string, Value>)

  // Numbers

  /** Little-endian digits of `value` in exactly n bytes. */
  function SerNum(value: int, n: nat): Option<Bytes>
    decreases n
  {
    if value < 0 then None
    else if n == 0 then if value == 0 then Some([]) else None
    else
      var rest :- SerNum(value / 256, n - 1);
      Some([value % 256] + rest)
  }

  function DeNum(bytes: Bytes): nat {
    if bytes == [] then 0 else bytes[0] + 256 * DeNum(bytes[1..])
  }

  lemma {:induction false} NumRoundTrip(value: int, n: nat)
    requires SerNum(value, n).Some?
    ensures |SerNum(value, n).value| == n && DeNum(SerNum(value, n).value) == value
    decreases n
  {
    if n > 0 {
      NumRoundTrip(value / 256, n - 1);
      var b := SerNum(value, n).value;
      assert b[1..] == SerNum(value / 256, n - 1).value;
    }
  }

  lemma {:induction false} NumCanonical(bytes: Bytes)
    ensures SerNum(DeNum(bytes), |bytes|) == Some(bytes)
  {
    if bytes != [] {
      NumCanonical(bytes[1..]);
      var rest := DeNum(bytes[1..]);
      assert (bytes[0] + 256 * rest) / 256 == rest && (bytes[0] + 256 * rest) % 256 == bytes[0];
      assert bytes == [bytes[0]] + bytes[1..];
    }
  }

  lemma OneByte(b: Byte)
    ensures SerNum(b, 1) == Some([b]) && DeNum([b]) == b
  {
    assert [b % 256] + [] == [b];
    assert SerNum(b / 256, 0) == Some([]);
    assert [b][1..] == [];
  }

  // Writing

  /** What `len(value)` and a loop over `value` see. */
  function Items(v: Value): Option<seq<Value>> {
    match v
    case VTuple(items) => Some(items)
    case VList(items) => Some(items)
    case VBytes(bytes) => Some(seq(|bytes|, i requires 0 <= i < |bytes| => VNum(bytes[i])))
    case VStr(s) => Some(seq(|s|, i requires 0 <= i < |s| => VStr([s[i]])))
    case _ => None
  }

  /** A Python bool is an int. */
  function AsInt(v: Value): Option<int> {
    match v
    case VNum(n) => Some(n)
    case VBool(b) => Some(if b then 1 else 0)
    case _ => None
  }

  predicate IsComposite(v: Value) {
    v.VTuple? || v.VList? || v.VObj?
  }

  /** One level of a value: its own bytes, then the fields it hands on. */
  datatype Node = Node(prefix: Bytes, values: seq<Value>, types: seq<FieldType>)

  function Leaf(bytes: Option<Bytes>): Option<Node> {
    var b :- bytes;
    Some(Node(b, [], []))
  }

  /** The index of the first variant with this name; an entry that is None breaks the search. */
  function FindVariant(variants: seq<Variant>, name: string): (r: Option<nat>)
    ensures r.Some? ==> r.value < |variants| && variants[r.value].Variant? && variants[r.value].name == name
  {
    if variants == [] || variants[0].NoVariant? then None
    else if variants[0].name == name then Some(0)
    else
      var i :- FindVariant(variants[1..], name);
      Some(i + 1)
  }

  predicate HasAttrs(v: Value, fields: seq<Field>) {
    v.VObj? && forall i :: 0 <= i < |fields| ==> fields[i].name in v.attrs
  }

  function FieldTypes(fields: seq<Field>): seq<FieldType> {
    seq(|fields|, i requires 0 <= i < |fields| => fields[i].ty)
  }

  function Repeat(t: FieldType, n: nat): (ts: seq<FieldType>)
    ensures |ts| == n && forall i :: 0 <= i < n ==> ts[i] == t
  {
    seq(n, _ => t)
  }

  /** `serialize_struct`: the attributes an object writes. */
  function ObjectShape(c: Codec, v: Value): (r: Option<Node>)
    ensures r.Some? ==> v.VObj? && |r.value.values| == |r.value.types|
    ensures r.Some? ==> forall i :: 0 <= i < |r.value.values| ==> r.value.values[i] < v
  {
    if !v.VObj? || v.cls !in c.schema then None
    else match c.schema[v.cls]
      case Struct(fields) =>
        if HasAttrs(v, fields)
        then Some(Node([], seq(|fields|, i requires 0 <= i < |fields| => v.attrs[fields[i].name]), FieldTypes(fields)))
        else None
      case Enum(field, variants) =>
        if field !in v.attrs || !v.attrs[field].VStr? then None
        else
          var name := v.attrs[field].s;
          var i :- FindVariant(variants, name);
          var tag :- SerNum(i, 1);
          var ty :- variants[i].ty;
          if name in v.attrs then Some(Node(tag, [v.attrs[name]], [ty])) else None
      case Malformed => None
  }

  /** A string: the length of its UTF-8 form, then that form. */
  function SerStr(c: Codec, s: string): Option<Bytes> {
    var b :- c.encode(s);
    var len :- SerNum(|b|, 4);
    Some(len + b)
  }

  /** Serialization recurses to smaller values, or to the same value at a smaller type. */
  ghost predicate Below(v': Value, t': FieldType, v: Value, t: FieldType) {
    if IsComposite(v) then !IsComposite(v') || v' < v || (v' == v && t' < t) else !IsComposite(v') && t' < t
  }

  /** `serialize_field`, one level of it. */
  function Shape(c: Codec, v: Value, t: FieldType): (r: Option<Node>)
    ensures r.Some? ==> |r.value.values| == |r.value.types|
    ensures r.Some? ==> forall i :: 0 <= i < |r.value.values| ==> Below(r.value.values[i], r.value.types[i], v, t)
  {
    match t
    case Tuple(ts) =>
      if ts == [] then Some(Node([], [], []))
      else
        var items :- Items(v);
        if |items| == |ts| then Some(Node([], items, ts)) else None
    case Bool => if v.VBool? then Leaf(SerNum(if v.b then 1 else 0, 1)) else None
    case UInt(bits) =>
      var value :- AsInt(v);
      Leaf(SerNum(value, bits / 8))
    case Str =>
      if v.VStr? then Leaf(SerStr(c, v.s)) else None
    case FixedBytes(len) => if v.VBytes? && |v.bytes| == len then Some(Node(v.bytes, [], [])) else None
    case List(elem) =>
      var items :- Items(v);
      var len :- SerNum(|items|, 4);
      Some(Node(len, items, Repeat(elem, |items|)))
    case Opt(inner) => if v == VNone then Some(Node([0], [], [])) else Some(Node([1], [v], [inner]))
    case Class(name) => if v.VObj? && v.cls == name then ObjectShape(c, v) else None
    case Unsupported => None
  }

  /** All parts one after the other, unless one of them failed. */
  function Collect(parts: seq<Option<Bytes>>): Option<Bytes> {
    if parts == [] then Some([])
    else
      var first :- parts[0];
      var rest :- Collect(parts[1..]);
      Some(first + rest)
  }

  /** The bytes appended by `serialize_field`. */
  function Ser(c: Codec, v: Value, t: FieldType): Option<Bytes>
    decreases IsComposite(v), if IsComposite(v) then v else VNone, t
  {
    var node :- Shape(c, v, t);
    var body :- Collect(seq(|node.values|, i requires 0 <= i < |node.values| => Ser(c, node.values[i], node.types[i])));
    Some(node.prefix + body)
  }

  // Reading

  function Height(t: FieldType): (h: nat)
    ensures h >= 1
  {
    match t
    case Tuple(ts) => 1 + MaxHeight(ts)
    case List(elem) => 1 + Height(elem)
    case Opt(inner) => 1 + Height(inner)
    case _ => 1
  }

  function MaxHeight(ts: seq<FieldType>): (h: nat) {
    if ts == [] then 0
    else
      var h := MaxHeight(ts[1..]);
      if Height(ts[0]) > h then Height(ts[0]) else h
  }

  lemma {:induction false} RepeatHeight(t: FieldType, n: nat)
    ensures MaxHeight(Repeat(t, n)) <= Height(t)
  {
    if n > 0 {
      assert Repeat(t, n)[1..] == Repeat(t, n - 1);
      RepeatHeight(t, n - 1);
    }
  }

  lemma {:induction false} ElementHeight(ts: seq<FieldType>, i: nat)
    requires i < |ts|
    ensures Height(ts[i]) <= MaxHeight(ts)
  {
    if i > 0 {
      assert ts[i] == ts[1..][i - 1];
      ElementHeight(ts[1..], i - 1);
    }
  }

  /** How the values read for the planned fields are put together. */
  datatype Kind =
    | Scalar(v: Value)
    | AsTuple
    | AsList
    | AsSome
    | AsObject(cls: string, fields: seq<Field>)
    | AsVariant(cls: string, field: string, variant: string)

  /** One level has been read up to `next`; fields of these types follow. */
  datatype Plan = Plan(next: nat, types: seq<FieldType>, kind: Kind)

  function ReadBytes(data: Bytes, off: nat, n: nat): Option<Bytes> {
    if off + n <= |data| then Some(data[off..off + n]) else None
  }

  function ReadNum(data: Bytes, off: nat, n: nat): Option<nat> {
    var b :- ReadBytes(data, off, n);
    Some(DeNum(b))
  }

  function DeStr(c: Codec, data: Bytes, off: nat): Option<(string, nat)> {
    var len :- ReadNum(data, off, 4);
    var b :- ReadBytes(data, off + 4, len);
    var s :- c.decode(b);
    Some((s, off + 4 + len))
  }

  /** `deserialize_struct`, up to the first field. */
  function ObjectHead(c: Codec, data: Bytes, off: nat, cls: string): Option<Plan> {
    if cls !in c.schema then None
    else match c.schema[cls]
      case Struct(fields) => Some(Plan(off, FieldTypes(fields), AsObject(cls, fields)))
      case Enum(field, variants) =>
        var ord :- ReadNum(data, off, 1);
        if ord < |variants| && variants[ord].Variant? && variants[ord].ty.Some?
        then Some(Plan(off + 1, [variants[ord].ty.value], AsVariant(cls, field, variants[ord].name)))
        else None
      case Malformed => None
  }

  /** `deserialize_field`, up to the first nested field. */
  function Head(c: Codec, data: Bytes, off: nat, t: FieldType): (r: Option<Plan>)
    ensures r.Some? && !t.Class? ==> MaxHeight(r.value.types) < Height(t)
  {
    match t
    case Tuple(ts) => Some(if ts == [] then Plan(off, [], Scalar(VNone)) else Plan(off, ts, AsTuple))
    case Bool =>
      var b :- ReadNum(data, off, 1);
      if b <= 1 then Some(Plan(off + 1, [], Scalar(VBool(b == 1)))) else None
    case UInt(bits) =>
      var n :- ReadNum(data, off, bits / 8);
      Some(Plan(off + bits / 8, [], Scalar(VNum(n))))
    case Str =>
      var r :- DeStr(c, data, off);
      Some(Plan(r.1, [], Scalar(VStr(r.0))))
    case FixedBytes(len) =>
      var b :- ReadBytes(data, off, len);
      Some(Plan(off + len, [], Scalar(VBytes(b))))
    case List(elem) =>
      var len :- ReadNum(data, off, 4);
      RepeatHeight(elem, len);
      Some(Plan(off + 4, Repeat(elem, len), AsList))
    case Opt(inner) =>
      var tag :- ReadNum(data, off, 1);
      Some(if tag == 0 then Plan(off + 1, [], Scalar(VNone)) else Plan(off + 1, [inner], AsSome))
    case Class(name) => ObjectHead(c, data, off, name)
    case Unsupported => None
  }

  /** Attributes set one after the other; a repeated name is overwritten. */
  function SetAttrs(attrs: map<string, Value>, fields: seq<Field>, values: seq<Value>): map<string, Value>
    requires |fields| == |values|
    decreases |fields|
  {
    if fields == [] then attrs else SetAttrs(attrs[fields[0].name := values[0]], fields[1..], values[1..])
  }

  function Build(kind: Kind, values: seq<Value>): Value {
    match kind
    case Scalar(v) => v
    case AsTuple => VTuple(values)
    case AsList => VList(values)
    case AsSome => if |values| == 1 then values[0] else VNone
    case AsObject(cls, fields) => VObj(cls, if |fields| == |values| then SetAttrs(map[], fields, values) else map[])
    case AsVariant(cls, field, variant) =>
      VObj(cls, map[field := VStr(variant)][variant := if |values| == 1 then values[0] else VNone])
  }

  /**
   `deserialize_field` at an offset: the value and the offset after it.  `depth` bounds how
   deep objects may nest, as Python's recursion limit does.
   */
  function De(c: Codec, data: Bytes, off: nat, t: FieldType, depth: nat): Option<(Value, nat)>
    decreases depth, Height(t), 0, 0
  {
    if t.Class? && depth == 0 then None
    else
      var plan :- Head(c, data, off, t);
      var r :- DeAll(c, data, plan.next, plan.types, if t.Class? then depth - 1 else depth);
      Some((Build(plan.kind, r.0), r.1))
  }

  function DeAll(c: Codec, data: Bytes, off: nat, ts: seq<FieldType>, depth: nat): (r: Option<(seq<Value>, nat)>)
    ensures r.Some? ==> |r.value.0| == |ts|
    decreases depth, MaxHeight(ts), 1, |ts|
  {
    if ts == [] then Some(([], off))
    else
      var first :- De(c, data, off, ts[0], depth);
      var rest :- DeAll(c, data, first.1, ts[1..], depth);
      Some(([first.0] + rest.0, rest.1))
  }
}
