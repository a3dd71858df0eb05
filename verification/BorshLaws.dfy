/**
 The laws of the Borsh format: reading undoes writing for every accepted value, encodings of
 one type are prefix-free, and writing undoes reading exactly on canonical input.
 */
module BorshLaws {
  import opened Wrappers
  import opened ByteStrings
  import opened Borsh
  import opened Sequences

  /** UTF-8 decoding undoes encoding, and the other way round. */
  ghost predicate IsUtf8(c: Codec) {
    forall s, b :: c.encode(s) == Some(b) <==> c.decode(b) == Some(s)
  }

  lemma Utf8Pair(c: Codec, s: string, b: Bytes)
    requires IsUtf8(c)
    ensures c.encode(s) == Some(b) <==> c.decode(b) == Some(s)
  {
  }

  // Reading undoes writing

  function ObjectKind(c: Codec, v: Value): Kind {
    if v.VObj? && v.cls in c.schema && c.schema[v.cls].Struct? then AsObject(v.cls, c.schema[v.cls].fields)
    else if v.VObj? && v.cls in c.schema && c.schema[v.cls].Enum? && c.schema[v.cls].field in v.attrs
        && v.attrs[c.schema[v.cls].field].VStr?
    then AsVariant(v.cls, c.schema[v.cls].field, v.attrs[c.schema[v.cls].field].s)
    else Scalar(v)
  }

  function KindOf(c: Codec, v: Value, t: FieldType): Kind {
    match t
    case Tuple(ts) => if ts == [] then Scalar(VNone) else AsTuple
    case UInt(_) => if AsInt(v).Some? then Scalar(VNum(AsInt(v).value)) else Scalar(v)
    case List(_) => AsList
    case Opt(_) => if v == VNone then Scalar(VNone) else AsSome
    case Class(_) => ObjectKind(c, v)
    case _ => Scalar(v)
  }

  /**
   What a written value reads back as: a list written as a tuple becomes a tuple, bytes
   written as a list of numbers become that list, a bool written as a number becomes a number,
   the empty tuple becomes None, and an object keeps the attributes of its schema only.
   */
  function Norm(c: Codec, v: Value, t: FieldType): Value
    decreases IsComposite(v), if IsComposite(v) then v else VNone, t
  {
    match Shape(c, v, t)
    case None => v
    case Some(node) =>
      Build(KindOf(c, v, t), seq(|node.values|,
          i requires 0 <= i < |node.values| => Norm(c, node.values[i], node.types[i])))
  }

  /** How deep objects nest in the written part of a value. */
  function Nesting(c: Codec, v: Value, t: FieldType): nat
    decreases IsComposite(v), if IsComposite(v) then v else VNone, t
  {
    match Shape(c, v, t)
    case None => 0
    case Some(node) =>
      (if t.Class? then 1 else 0)
      + Max(seq(|node.values|, i requires 0 <= i < |node.values| => Nesting(c, node.values[i], node.types[i])))
  }

  ghost predicate HasAt(data: Bytes, off: nat, b: Bytes) {
    off + |b| <= |data| && data[off..off + |b|] == b
  }

  lemma HasAtSplit(data: Bytes, off: nat, a: Bytes, b: Bytes)
    requires HasAt(data, off, a + b)
    ensures HasAt(data, off, a) && HasAt(data, off + |a|, b)
  {
    assert data[off..off + |a|] == (a + b)[..|a|] == a;
    assert data[off + |a|..off + |a| + |b|] == (a + b)[|a|..] == b;
  }

  lemma ObjectHeadUndoesShape(c: Codec, v: Value, data: Bytes, off: nat)
    requires ObjectShape(c, v).Some? && HasAt(data, off, ObjectShape(c, v).value.prefix)
    ensures var node := ObjectShape(c, v).value;
            ObjectHead(c, data, off, v.cls) == Some(Plan(off + |node.prefix|, node.types, ObjectKind(c, v)))
  {
    match c.schema[v.cls]
    case Enum(field, variants) => NumRoundTrip(FindVariant(variants, v.attrs[field].s).value, 1);
    case _ =>
  }

  lemma StrRoundTrip(c: Codec, s: string, data: Bytes, off: nat)
    requires IsUtf8(c) && SerStr(c, s).Some? && HasAt(data, off, SerStr(c, s).value)
    ensures DeStr(c, data, off) == Some((s, off + |SerStr(c, s).value|))
  {
    hide IsUtf8, DeNum, SerNum;
    var b := c.encode(s).value;
    NumRoundTrip(|b|, 4);
    HasAtSplit(data, off, SerNum(|b|, 4).value, b);
    Utf8Pair(c, s, b);
  }

  /** One level: the reader plans exactly the fields that the writer handed on. */
  lemma HeadUndoesShape(c: Codec, v: Value, t: FieldType, data: Bytes, off: nat)
    requires IsUtf8(c) && Shape(c, v, t).Some?
    requires HasAt(data, off, Shape(c, v, t).value.prefix)
    ensures var node := Shape(c, v, t).value;
            Head(c, data, off, t) == Some(Plan(off + |node.prefix|, node.types, KindOf(c, v, t)))
  {
    hide IsUtf8, SerStr, DeStr, SerNum, DeNum, ObjectShape, ObjectHead, ObjectKind;
    match t
    case Tuple(_) =>
    case Bool => NumRoundTrip(if v.b then 1 else 0, 1);
    case UInt(bits) => NumRoundTrip(AsInt(v).value, bits / 8);
    case Str => StrRoundTrip(c, v.s, data, off);
    case FixedBytes(_) =>
    case List(elem) =>
      NumRoundTrip(|Items(v).value|, 4);
    case Opt(_) => OneByte(if v == VNone then 0 else 1);
    case Class(_) => ObjectHeadUndoesShape(c, v, data, off);
  }

  /** What the fields of a level write. */
  function Parts(c: Codec, values: seq<Value>, types: seq<FieldType>): (parts: seq<Option<Bytes>>)
    requires |values| == |types|
  {
    seq(|values|, i requires 0 <= i < |values| => Ser(c, values[i], types[i]))
  }

  function Norms(c: Codec, values: seq<Value>, types: seq<FieldType>): seq<Value>
    requires |values| == |types|
  {
    seq(|values|, i requires 0 <= i < |values| => Norm(c, values[i], types[i]))
  }

  // The recursive definitions, one level at a time

  lemma SerShape(c: Codec, v: Value, t: FieldType) returns (node: Node)
    requires Ser(c, v, t).Some?
    ensures Shape(c, v, t) == Some(node)
  {
    hide Shape, Head, Collect;
    node := Shape(c, v, t).value;
  }

  lemma SerLevel(c: Codec, v: Value, t: FieldType, node: Node)
    requires Shape(c, v, t) == Some(node)
    ensures Collect(Parts(c, node.values, node.types)).Some? ==>
      Ser(c, v, t) == Some(node.prefix + Collect(Parts(c, node.values, node.types)).value)
    ensures Collect(Parts(c, node.values, node.types)).None? ==> Ser(c, v, t).None?
  {
    hide Shape, Head, Collect;
    assert Parts(c, node.values, node.types)
        == seq(|node.values|, i requires 0 <= i < |node.values| => Ser(c, node.values[i], node.types[i]));
  }

  lemma NormLevel(c: Codec, v: Value, t: FieldType, node: Node)
    requires Shape(c, v, t) == Some(node)
    ensures Norm(c, v, t) == Build(KindOf(c, v, t), Norms(c, node.values, node.types))
  {
    hide Shape, Head, KindOf, Build;
    assert Norms(c, node.values, node.types)
        == seq(|node.values|, i requires 0 <= i < |node.values| => Norm(c, node.values[i], node.types[i]));
  }

  lemma NestingLevel(c: Codec, v: Value, t: FieldType, node: Node, i: nat)
    requires Shape(c, v, t) == Some(node) && i < |node.values|
    ensures Nesting(c, node.values[i], node.types[i]) + (if t.Class? then 1 else 0) <= Nesting(c, v, t)
  {
    hide Shape, Head;
    var depths := seq(|node.values|, i requires 0 <= i < |node.values| => Nesting(c, node.values[i], node.types[i]));
    assert depths[i] <= Max(depths);
  }

  lemma NestingOfClass(c: Codec, v: Value, t: FieldType)
    requires Shape(c, v, t).Some? && t.Class?
    ensures Nesting(c, v, t) >= 1
  {
    hide Shape, Head;
  }

  lemma DeLevel(c: Codec, data: Bytes, off: nat, t: FieldType, depth: nat, plan: Plan)
    requires Head(c, data, off, t) == Some(plan) && (t.Class? ==> depth > 0)
    ensures var r := DeAll(c, data, plan.next, plan.types, if t.Class? then depth - 1 else depth);
            De(c, data, off, t, depth) == if r.Some? then Some((Build(plan.kind, r.value.0), r.value.1)) else None
  {
    hide Shape, Head, Build;
  }

  /** The values read so far, in front of what is read for the remaining fields. */
  function Joined(values: seq<Value>, rest: Option<(seq<Value>, nat)>): Option<(seq<Value>, nat)> {
    if rest.Some? then Some((values + rest.value.0, rest.value.1)) else None
  }

  lemma DeAllStep(c: Codec, data: Bytes, off: nat, ts: seq<FieldType>, j: nat, depth: nat)
    requires j < |ts| && De(c, data, off, ts[j], depth).Some?
    ensures var (first, mid) := De(c, data, off, ts[j], depth).value;
            DeAll(c, data, off, ts[j..], depth) == Joined([first], DeAll(c, data, mid, ts[j + 1..], depth))
  {
    hide Shape, Head, Build;
    assert ts[j..][0] == ts[j] && ts[j..][1..] == ts[j + 1..];
  }

  lemma CollectStep(parts: seq<Option<Bytes>>, j: nat)
    requires j < |parts|
    ensures var rest := Collect(parts[j + 1..]);
            Collect(parts[j..]) == if parts[j].Some? && rest.Some? then Some(parts[j].value + rest.value) else None
  {
    assert parts[j..][0] == parts[j] && parts[j..][1..] == parts[j + 1..];
  }

  /**
   For every schema, every type and every value that can be written: wherever its bytes stand
   in the data, reading there returns the value, normalised, and stops right after them.
   */
  lemma {:induction false} ReadUndoesWrite(c: Codec, v: Value, t: FieldType, data: Bytes, off: nat, depth: nat)
    requires IsUtf8(c) && Ser(c, v, t).Some? && depth >= Nesting(c, v, t)
    requires HasAt(data, off, Ser(c, v, t).value)
    ensures De(c, data, off, t, depth) == Some((Norm(c, v, t), off + |Ser(c, v, t).value|))
    decreases IsComposite(v), if IsComposite(v) then v else VNone, t
  {
    hide Ser, De, DeAll, Norm, Nesting, Shape, Head, Build, IsUtf8, Collect, HasAt, KindOf;
    var node := SerShape(c, v, t);
    SerLevel(c, v, t, node);
    var body := Collect(Parts(c, node.values, node.types)).value;
    HasAtSplit(data, off, node.prefix, body);
    HeadUndoesShape(c, v, t, data, off);
    if t.Class? {
      NestingOfClass(c, v, t);
    }
    var depth' := if t.Class? then depth - 1 else depth;
    forall i | 0 <= i < |node.values|
      ensures Nesting(c, node.values[i], node.types[i]) <= depth'
    {
      NestingLevel(c, v, t, node, i);
    }
    assert Parts(c, node.values, node.types)[0..] == Parts(c, node.values, node.types);
    ReadAllUndoesWrite(c, v, t, node, data, off + |node.prefix|, 0, depth');
    assert node.types[0..] == node.types && Norms(c, node.values, node.types)[0..] == Norms(c, node.values, node.types);
    DeLevel(c, data, off, t, depth, Plan(off + |node.prefix|, node.types, KindOf(c, v, t)));
    NormLevel(c, v, t, node);
  }

  lemma {:induction false} ReadAllUndoesWrite(c: Codec, v: Value, t: FieldType, node: Node, data: Bytes, off: nat,
                                              j: nat, depth: nat)
    requires IsUtf8(c) && Shape(c, v, t) == Some(node) && j <= |node.values|
    requires Collect(Parts(c, node.values, node.types)[j..]).Some?
        && HasAt(data, off, Collect(Parts(c, node.values, node.types)[j..]).value)
    requires forall i :: 0 <= i < |node.values| ==> Nesting(c, node.values[i], node.types[i]) <= depth
    ensures DeAll(c, data, off, node.types[j..], depth) ==
        Some((Norms(c, node.values, node.types)[j..], off + |Collect(Parts(c, node.values, node.types)[j..]).value|))
    decreases IsComposite(v), if IsComposite(v) then v else VNone, t, |node.values| - j
  {
    hide Ser, De, Norm, Nesting, Shape, Head, Build, IsUtf8, HasAt;
    if j < |node.values| {
      CollectStep(Parts(c, node.values, node.types), j);
      var first, rest := Parts(c, node.values, node.types)[j].value,
          Collect(Parts(c, node.values, node.types)[j + 1..]).value;
      HasAtSplit(data, off, first, rest);
      ReadUndoesWrite(c, node.values[j], node.types[j], data, off, depth);
      ReadAllUndoesWrite(c, v, t, node, data, off + |first|, j + 1, depth);
      DeAllStep(c, data, off, node.types, j, depth);
      assert Norms(c, node.values, node.types)[j..] ==
          [Norms(c, node.values, node.types)[j]] + Norms(c, node.values, node.types)[j + 1..];
    }
  }

  /** Equal encodings of one type come from values that read back the same. */
  lemma WriteIsInjective(c: Codec, v: Value, w: Value, t: FieldType)
    requires IsUtf8(c) && Ser(c, v, t).Some? && Ser(c, v, t) == Ser(c, w, t)
    ensures Norm(c, v, t) == Norm(c, w, t)
  {
    hide Ser, De, Norm, Nesting, Shape, Head, IsUtf8;
    var b := Ser(c, v, t).value;
    var depth := Nesting(c, v, t) + Nesting(c, w, t);
    assert HasAt(b, 0, b);
    ReadUndoesWrite(c, v, t, b, 0, depth);
    ReadUndoesWrite(c, w, t, b, 0, depth);
  }

  /** No encoding is a proper prefix of another encoding of the same type. */
  lemma WriteIsPrefixFree(c: Codec, v: Value, w: Value, t: FieldType)
    requires IsUtf8(c) && Ser(c, v, t).Some? && Ser(c, w, t).Some?
    requires Ser(c, v, t).value <= Ser(c, w, t).value
    ensures Ser(c, v, t) == Ser(c, w, t)
  {
    hide Ser, De, Norm, Nesting, Shape, Head, IsUtf8;
    var b := Ser(c, w, t).value;
    var depth := Nesting(c, v, t) + Nesting(c, w, t);
    assert HasAt(b, 0, b) && HasAt(b, 0, Ser(c, v, t).value);
    ReadUndoesWrite(c, v, t, b, 0, depth);
    ReadUndoesWrite(c, w, t, b, 0, depth);
    assert b[..|b|] == b;
  }

  // Well-typed values

  /** The value has the very Python type that reading this field type produces; its fields are not looked at. */
  ghost predicate IsExact(c: Codec, v: Value, t: FieldType) {
    match t
    case Tuple(ts) => if ts == [] then v == VNone else v.VTuple?
    case UInt(_) => v.VNum?
    case List(_) => v.VList?
    case Class(_) =>
      v.VObj? && v.cls in c.schema && (
        match c.schema[v.cls]
        case Struct(fields) => forall name :: name in v.attrs ==>
            exists i :: 0 <= i < |fields| && fields[i].name == name
        case Enum(field, _) =>
          field in v.attrs && v.attrs[field].VStr?
              && (forall name :: name in v.attrs ==> name == field || name == v.attrs[field].s)
        case Malformed => false)
    case _ => true
  }

  /** The value has this type, all the way down. */
  ghost predicate HasType(c: Codec, v: Value, t: FieldType)
    decreases IsComposite(v), if IsComposite(v) then v else VNone, t
  {
    && IsExact(c, v, t)
    && Shape(c, v, t).Some?
    && var node := Shape(c, v, t).value;
    && forall i :: 0 <= i < |node.values| ==> HasType(c, node.values[i], node.types[i])
  }

  lemma {:induction false} SetOwnAttrs(attrs: map<string, Value>, all: map<string, Value>, fields: seq<Field>,
                                       values: seq<Value>)
    requires |fields| == |values|
    requires forall i :: 0 <= i < |fields| ==> fields[i].name in all && all[fields[i].name] == values[i]
    requires forall name :: name in attrs ==> name in all && attrs[name] == all[name]
    requires forall name :: name in all && name !in attrs ==> exists i :: 0 <= i < |fields| && fields[i].name == name
    ensures SetAttrs(attrs, fields, values) == all
    decreases |fields|
  {
    if fields == [] {
      assert attrs == all;
    } else {
      var next := attrs[fields[0].name := values[0]];
      forall name | name in all && name !in next
        ensures exists i :: 0 <= i < |fields[1..]| && fields[1..][i].name == name
      {
        var i :| 0 <= i < |fields| && fields[i].name == name;
        assert fields[1..][i - 1].name == name;
      }
      SetOwnAttrs(next, all, fields[1..], values[1..]);
    }
  }

  lemma BuildExactObject(c: Codec, v: Value, node: Node)
    requires v.VObj? && IsExact(c, v, Class(v.cls)) && ObjectShape(c, v) == Some(node)
    ensures Build(ObjectKind(c, v), node.values) == v
  {
    match c.schema[v.cls]
    case Struct(fields) =>
      assert |node.values| == |fields|;
      SetOwnAttrs(map[], v.attrs, fields, node.values);
    case Enum(field, _) => assert map[field := v.attrs[field]][v.attrs[field].s := node.values[0]] == v.attrs;
  }

  lemma BuildExact(c: Codec, v: Value, t: FieldType, node: Node)
    requires IsExact(c, v, t) && Shape(c, v, t) == Some(node)
    ensures Build(KindOf(c, v, t), node.values) == v
  {
    hide SetAttrs, ObjectShape, ObjectKind;
    if t.Class? {
      BuildExactObject(c, v, node);
    }
  }

  lemma {:induction false} CollectSucceeds(parts: seq<Option<Bytes>>)
    requires forall i :: 0 <= i < |parts| ==> parts[i].Some?
    ensures Collect(parts).Some?
  {
    if parts != [] {
      CollectSucceeds(parts[1..]);
    }
  }

  lemma HasTypeLevel(c: Codec, v: Value, t: FieldType) returns (node: Node)
    requires HasType(c, v, t)
    ensures IsExact(c, v, t) && Shape(c, v, t) == Some(node)
    ensures forall i :: 0 <= i < |node.values| ==> HasType(c, node.values[i], node.types[i])
  {
    hide Shape, IsExact;
    node := Shape(c, v, t).value;
  }

  /** A well-typed value can be written, and is its own normal form. */
  lemma {:induction false} TypedIsNormal(c: Codec, v: Value, t: FieldType)
    requires HasType(c, v, t)
    ensures Ser(c, v, t).Some? && Norm(c, v, t) == v
    decreases IsComposite(v), if IsComposite(v) then v else VNone, t
  {
    hide Ser, Norm, Shape, Head, Build, KindOf, Collect, HasType, IsExact;
    var node := HasTypeLevel(c, v, t);
    forall i | 0 <= i < |node.values|
      ensures Parts(c, node.values, node.types)[i].Some? && Norms(c, node.values, node.types)[i] == node.values[i]
    {
      TypedIsNormal(c, node.values[i], node.types[i]);
    }
    CollectSucceeds(Parts(c, node.values, node.types));
    SerLevel(c, v, t, node);
    NormLevel(c, v, t, node);
    assert Norms(c, node.values, node.types) == node.values;
    BuildExact(c, v, t, node);
  }

  /**
   Reading `pre + Ser(v) + post` at the end of `pre` returns a well-typed v itself, and stops at the
   start of `post`.
   */
  lemma TypedRoundTrip(c: Codec, v: Value, t: FieldType, pre: Bytes, post: Bytes, depth: nat)
    requires IsUtf8(c) && HasType(c, v, t) && depth >= Nesting(c, v, t)
    ensures Ser(c, v, t).Some?
    ensures var b := Ser(c, v, t).value; De(c, pre + b + post, |pre|, t, depth) == Some((v, |pre| + |b|))
  {
    hide Ser, De, Norm, Nesting, HasType, IsUtf8;
    TypedIsNormal(c, v, t);
    var b := Ser(c, v, t).value;
    var data := pre + b + post;
    assert data[|pre|..|pre| + |b|] == b;
    ReadUndoesWrite(c, v, t, data, |pre|, depth);
  }

  // Writing undoes reading

  /** The names of a struct's fields are distinct; so are those of an enum's variants and its own field. */
  ghost predicate HasDistinctNames(s: ClassSchema) {
    match s
    case Struct(fields) => forall i, j :: 0 <= i < j < |fields| ==> fields[i].name != fields[j].name
    case Enum(field, variants) =>
      && (forall i :: 0 <= i < |variants| ==> variants[i].Variant? && variants[i].name != field)
      && (forall i, j :: 0 <= i < j < |variants| ==> variants[i].name != variants[j].name)
    case Malformed => true
  }

  ghost predicate IsUnambiguous(c: Codec) {
    forall cls :: cls in c.schema ==> HasDistinctNames(c.schema[cls])
  }

  lemma {:induction false} FindOwnVariant(variants: seq<Variant>, i: nat)
    requires i < |variants|
    requires forall k :: 0 <= k < |variants| ==> variants[k].Variant?
    requires forall j, k :: 0 <= j < k < |variants| ==> variants[j].name != variants[k].name
    ensures FindVariant(variants, variants[i].name) == Some(i)
  {
    if i > 0 {
      assert variants[0].name != variants[i].name;
      assert variants[1..][i - 1] == variants[i];
      FindOwnVariant(variants[1..], i - 1);
    }
  }

  lemma {:induction false} SetAttrsKeeps(attrs: map<string, Value>, fields: seq<Field>, values: seq<Value>,
                                         name: string)
    requires |fields| == |values| && name in attrs
    requires forall i :: 0 <= i < |fields| ==> fields[i].name != name
    ensures name in SetAttrs(attrs, fields, values) && SetAttrs(attrs, fields, values)[name] == attrs[name]
    decreases |fields|
  {
    if fields != [] {
      SetAttrsKeeps(attrs[fields[0].name := values[0]], fields[1..], values[1..], name);
    }
  }

  lemma {:induction false} SetAttrsGets(attrs: map<string, Value>, fields: seq<Field>, values: seq<Value>, i: nat)
    requires |fields| == |values| && i < |fields|
    requires forall j, k :: 0 <= j < k < |fields| ==> fields[j].name != fields[k].name
    ensures fields[i].name in SetAttrs(attrs, fields, values)
        && SetAttrs(attrs, fields, values)[fields[i].name] == values[i]
    decreases |fields|
  {
    var next := attrs[fields[0].name := values[0]];
    if i == 0 {
      SetAttrsKeeps(next, fields[1..], values[1..], fields[0].name);
    } else {
      SetAttrsGets(next, fields[1..], values[1..], i - 1);
    }
  }

  lemma FieldsAreValues(fields: seq<Field>, values: seq<Value>)
    requires |fields| == |values| && forall j, k :: 0 <= j < k < |fields| ==> fields[j].name != fields[k].name
    ensures var attrs := SetAttrs(map[], fields, values);
            && (forall i :: 0 <= i < |fields| ==> fields[i].name in attrs)
            && seq(|fields|, i requires 0 <= i < |fields| => attrs[fields[i].name]) == values
  {
    hide SetAttrs;
    var attrs := SetAttrs(map[], fields, values);
    forall i | 0 <= i < |fields|
      ensures fields[i].name in attrs && attrs[fields[i].name] == values[i]
    {
      SetAttrsGets(map[], fields, values, i);
    }
  }

  lemma ObjectShapeUndoesHead(c: Codec, data: Bytes, off: nat, cls: string, values: seq<Value>)
    requires IsUnambiguous(c) && ObjectHead(c, data, off, cls).Some?
    requires |values| == |ObjectHead(c, data, off, cls).value.types|
    ensures var plan := ObjectHead(c, data, off, cls).value;
            && off <= plan.next && (off <= |data| ==> plan.next <= |data|)
            && Build(plan.kind, values).VObj? && Build(plan.kind, values).cls == cls
            && (off <= |data| ==>
                  ObjectShape(c, Build(plan.kind, values)) == Some(Node(data[off..plan.next], values, plan.types)))
  {
    var plan := ObjectHead(c, data, off, cls).value;
    var v := Build(plan.kind, values);
    assert HasDistinctNames(c.schema[cls]);
    match c.schema[cls]
    case Struct(fields) =>
      FieldsAreValues(fields, values);
      assert v.attrs == SetAttrs(map[], fields, values);
      assert seq(|fields|, i requires 0 <= i < |fields| => v.attrs[fields[i].name]) == values;
      assert off <= |data| ==> data[off..off] == [];
    case Enum(field, variants) =>
      var b := ReadBytes(data, off, 1).value;
      NumCanonical(b);
      FindOwnVariant(variants, DeNum(b));
      assert values == [values[0]];
  }

  lemma StrCanonical(c: Codec, data: Bytes, off: nat)
    requires IsUtf8(c) && DeStr(c, data, off).Some?
    ensures var (s, end) := DeStr(c, data, off).value; off <= end <= |data| && SerStr(c, s) == Some(data[off..end])
  {
    hide IsUtf8, DeNum, SerNum;
    var (s, end) := DeStr(c, data, off).value;
    var len, b := data[off..off + 4], data[off + 4..end];
    NumCanonical(len);
    assert len + b == data[off..end];
    Utf8Pair(c, s, b);
  }

  lemma ScalarShapeUndoesHead(c: Codec, data: Bytes, off: nat, t: FieldType)
    requires IsUtf8(c) && off <= |data| && Head(c, data, off, t).Some?
    requires t.Bool? || t.UInt? || t.Str? || t.FixedBytes?
    ensures var plan := Head(c, data, off, t).value;
            && off <= plan.next <= |data| && plan.types == [] && plan.kind.Scalar?
            && Shape(c, plan.kind.v, t) == Some(Node(data[off..plan.next], [], []))
  {
    hide IsUtf8, SerStr, DeStr;
    match t
    case Bool => NumCanonical(data[off..off + 1]);
    case UInt(bits) => NumCanonical(data[off..off + bits / 8]);
    case Str => StrCanonical(c, data, off);
    case FixedBytes(_) =>
  }

  /** One level: the writer hands on exactly the fields that were read, except for an option's tag. */
  lemma ShapeUndoesHead(c: Codec, data: Bytes, off: nat, t: FieldType, values: seq<Value>)
    requires IsUtf8(c) && IsUnambiguous(c) && off <= |data| && Head(c, data, off, t).Some?
        && !Head(c, data, off, t).value.kind.AsSome?
    requires |values| == |Head(c, data, off, t).value.types|
    ensures var plan := Head(c, data, off, t).value;
            && off <= plan.next <= |data|
            && Shape(c, Build(plan.kind, values), t) == Some(Node(data[off..plan.next], values, plan.types))
  {
    hide IsUtf8, IsUnambiguous, ObjectHead, ObjectShape, SerStr, DeStr;
    var plan := Head(c, data, off, t).value;
    match t
    case Tuple(ts) =>
      assert data[off..off] == [];
      assert ts == [] ==> values == [];
    case List(elem) =>
      NumCanonical(data[off..off + 4]);
      assert plan.types == Repeat(elem, |values|);
    case Opt(_) =>
      NumCanonical(data[off..off + 1]);
      OneByte(0);
    case Class(name) => ObjectShapeUndoesHead(c, data, off, name, values);
    case _ => ScalarShapeUndoesHead(c, data, off, t);
  }

  /** An option that was read: where its tag is, and the type of its payload. */
  datatype OptionRead = OptionRead(off: nat, inner: FieldType)

  /** The options read from here on, in order. */
  ghost function OptionsRead(c: Codec, data: Bytes, off: nat, t: FieldType, depth: nat): seq<OptionRead>
    decreases depth, Height(t), 0, 0
  {
    if De(c, data, off, t, depth).None? then []
    else
      var plan := Head(c, data, off, t).value;
      (if t.Opt? then [OptionRead(off, t.inner)] else [])
      + OptionsReadAll(c, data, plan.next, plan.types, if t.Class? then depth - 1 else depth)
  }

  ghost function OptionsReadAll(c: Codec, data: Bytes, off: nat, ts: seq<FieldType>, depth: nat): seq<OptionRead>
    decreases depth, MaxHeight(ts), 1, |ts|
  {
    if ts == [] then []
    else
      OptionsRead(c, data, off, ts[0], depth)
      + if De(c, data, off, ts[0], depth).None? then []
        else OptionsReadAll(c, data, De(c, data, off, ts[0], depth).value.1, ts[1..], depth)
  }

  /**
   The bytes here stand for None: an empty tuple, an absent option, or a present one whose payload
   stands for None.
   */
  predicate StandsForNone(data: Bytes, off: nat, t: FieldType)
    decreases t
  {
    t == Tuple([]) || (t.Opt? && off < |data| && (data[off] == 0 || StandsForNone(data, off + 1, t.inner)))
  }

  /** Tag 0, or tag 1 and a payload that does not stand for None. */
  predicate IsCanonicalOption(data: Bytes, o: OptionRead) {
    o.off < |data| && (data[o.off] == 0 || (data[o.off] == 1 && !StandsForNone(data, o.off + 1, o.inner)))
  }

  ghost predicate AllCanonical(data: Bytes, options: seq<OptionRead>) {
    forall i :: 0 <= i < |options| ==> IsCanonicalOption(data, options[i])
  }

  ghost predicate IsCanonical(c: Codec, data: Bytes, off: nat, t: FieldType, depth: nat) {
    AllCanonical(data, OptionsRead(c, data, off, t, depth))
  }

  ghost predicate AreCanonical(c: Codec, data: Bytes, off: nat, ts: seq<FieldType>, depth: nat) {
    AllCanonical(data, OptionsReadAll(c, data, off, ts, depth))
  }

  lemma AllCanonicalBoth(data: Bytes, a: seq<OptionRead>, b: seq<OptionRead>)
    ensures AllCanonical(data, a + b) <==> AllCanonical(data, a) && AllCanonical(data, b)
  {
    hide IsCanonicalOption;
    if AllCanonical(data, a + b) {
      forall i | 0 <= i < |b|
        ensures IsCanonicalOption(data, b[i])
      {
        assert (a + b)[|a| + i] == b[i];
      }
      forall i | 0 <= i < |a|
        ensures IsCanonicalOption(data, a[i])
      {
        assert (a + b)[i] == a[i];
      }
    }
  }

  lemma TagRead(c: Codec, data: Bytes, off: nat, t: FieldType, plan: Plan)
    requires t.Opt? && Head(c, data, off, t) == Some(plan)
    ensures off < |data| && plan == if data[off] == 0 then Plan(off + 1, [], Scalar(VNone))
        else Plan(off + 1, [t.inner], AsSome)
  {
    if off < |data| {
      assert data[off..off + 1] == [data[off]];
      OneByte(data[off]);
    }
  }

  lemma DeHead(c: Codec, data: Bytes, off: nat, t: FieldType, depth: nat) returns (plan: Plan)
    requires De(c, data, off, t, depth).Some?
    ensures Head(c, data, off, t) == Some(plan) && (t.Class? ==> depth > 0)
    ensures DeAll(c, data, plan.next, plan.types, if t.Class? then depth - 1 else depth).Some?
  {
    hide Shape, Head, Build;
    plan := Head(c, data, off, t).value;
  }

  lemma DeAllFirst(c: Codec, data: Bytes, off: nat, ts: seq<FieldType>, depth: nat)
    requires ts != [] && DeAll(c, data, off, ts, depth).Some?
    ensures De(c, data, off, ts[0], depth).Some?
    ensures DeAll(c, data, De(c, data, off, ts[0], depth).value.1, ts[1..], depth).Some?
  {
    hide De;
  }

  /** What is read is None exactly when the bytes stand for it. */
  lemma {:induction false} NoneIsVisible(c: Codec, data: Bytes, off: nat, t: FieldType, depth: nat)
    requires De(c, data, off, t, depth).Some?
    ensures De(c, data, off, t, depth).value.0 == VNone <==> StandsForNone(data, off, t)
    decreases t
  {
    var plan := DeHead(c, data, off, t, depth);
    DeLevel(c, data, off, t, depth, plan);
    if t.Opt? {
      TagRead(c, data, off, t, plan);
      if data[off] != 0 {
        DeAllFirst(c, data, off + 1, [t.inner], depth);
        assert [t.inner][0..] == [t.inner];
        DeAllStep(c, data, off + 1, [t.inner], 0, depth);
        hide De, DeAll, Head;
        NoneIsVisible(c, data, off + 1, t.inner, depth);
      }
    }
  }

  /** The two byte strings differ at a position both have. */
  ghost predicate Diverge(a: Bytes, b: Bytes) {
    exists i :: 0 <= i < |a| && i < |b| && a[i] != b[i]
  }

  /** b is the stretch of data from off to end, or differs from it at some byte. */
  ghost predicate Rewrites(data: Bytes, off: nat, end: nat, b: Option<Bytes>, same: bool) {
    && off <= end <= |data| && b.Some?
    && if same then b.value == data[off..end] else Diverge(b.value, data[off..end])
  }

  lemma RewritesBoth(data: Bytes, off: nat, mid: nat, end: nat, a: Bytes, b: Bytes, sameA: bool, sameB: bool)
    requires Rewrites(data, off, mid, Some(a), sameA) && Rewrites(data, mid, end, Some(b), sameB)
    ensures Rewrites(data, off, end, Some(a + b), sameA && sameB)
  {
    var x, y := data[off..mid], data[mid..end];
    assert data[off..end] == x + y;
    if !sameA {
      var i :| 0 <= i < |a| && i < |x| && a[i] != x[i];
      assert (a + b)[i] != (x + y)[i];
    } else if !sameB {
      var i :| 0 <= i < |b| && i < |y| && b[i] != y[i];
      assert (a + b)[|a| + i] != (x + y)[|a| + i];
    }
  }

  lemma RewritesTag(data: Bytes, off: nat, tag: Byte)
    requires off < |data|
    ensures Rewrites(data, off, off + 1, Some([tag]), data[off] == tag)
  {
    assert data[off..off + 1] == [data[off]];
    assert [tag][0] == tag;
  }

  lemma DiffersFromTag(data: Bytes, off: nat, end: nat, tag: Byte)
    requires off < end <= |data| && data[off] != tag
    ensures Rewrites(data, off, end, Some([tag]), false)
  {
    assert data[off..end][0] == data[off] && [tag][0] == tag;
  }

  lemma RewritesSame(data: Bytes, off: nat, end: nat)
    requires off <= end <= |data|
    ensures Rewrites(data, off, end, Some(data[off..end]), true)
  {
  }

  lemma HeadAdvances(c: Codec, data: Bytes, off: nat, t: FieldType)
    requires off <= |data| && Head(c, data, off, t).Some?
    ensures off <= Head(c, data, off, t).value.next <= |data|
  {
  }

  lemma CanonicalSome(c: Codec, data: Bytes, off: nat, t: FieldType, depth: nat, plan: Plan)
    requires De(c, data, off, t, depth).Some? && Head(c, data, off, t) == Some(plan) && plan.kind.AsSome? && t.Opt?
    ensures off < |data|
    ensures IsCanonical(c, data, off, t, depth) <==>
      && data[off] == 1 && De(c, data, off, t, depth).value.0 != VNone
      && AreCanonical(c, data, plan.next, plan.types, depth)
  {
    TagRead(c, data, off, t, plan);
    NoneIsVisible(c, data, off, t, depth);
    var rest := OptionsReadAll(c, data, plan.next, plan.types, depth);
    assert OptionsRead(c, data, off, t, depth) == [OptionRead(off, t.inner)] + rest;
    hide Shape, Head, De, OptionsRead, OptionsReadAll;
    AllCanonicalBoth(data, [OptionRead(off, t.inner)], rest);
    assert AllCanonical(data, [OptionRead(off, t.inner)]) <==> IsCanonicalOption(data, OptionRead(off, t.inner)) by {
      assert [OptionRead(off, t.inner)][0] == OptionRead(off, t.inner);
    }
  }

  lemma SomeHead(c: Codec, data: Bytes, off: nat, t: FieldType, plan: Plan)
    requires Head(c, data, off, t) == Some(plan) && plan.kind.AsSome?
    ensures t.Opt? && plan == Plan(off + 1, [t.inner], AsSome)
    ensures off < |data| && data[off] != 0 && ReadNum(data, off, 1) == Some(data[off] as nat)
  {
    if off < |data| {
      assert data[off..off + 1] == [data[off]];
      OneByte(data[off]);
    }
  }

  lemma SomeShape(c: Codec, v: Value, t: FieldType)
    requires t.Opt?
    ensures v == VNone ==> Ser(c, v, t) == Some([0])
    ensures v != VNone ==> Shape(c, v, t) == Some(Node([1], [v], [t.inner]))
  {
    if v == VNone {
      SerLevel(c, v, t, Node([0], [], []));
      assert Parts(c, [], []) == [];
      assert [0] + [] == [0];
    }
  }

  /** An option with a payload: its tag and its payload are written again. */
  lemma SomeCase(c: Codec, data: Bytes, off: nat, t: FieldType, depth: nat, plan: Plan)
    requires De(c, data, off, t, depth).Some? && Head(c, data, off, t) == Some(plan) && plan.kind.AsSome?
    requires t.Opt? && plan == Plan(off + 1, [t.inner], AsSome) && DeAll(c, data, off + 1, [t.inner], depth).Some?
    requires var (values, end) := DeAll(c, data, off + 1, [t.inner], depth).value;
             Rewrites(data, off + 1, end, Collect(Parts(c, values, [t.inner])),
                 AreCanonical(c, data, off + 1, [t.inner], depth))
    ensures var (v, end) := De(c, data, off, t, depth).value;
            Rewrites(data, off, end, Ser(c, v, t), IsCanonical(c, data, off, t, depth))
  {
    hide Ser, De, DeAll, Shape, Head, Collect, IsCanonical, AreCanonical, ReadNum, Diverge;
    DeLevel(c, data, off, t, depth, plan);
    SomeHead(c, data, off, t, plan);
    CanonicalSome(c, data, off, t, depth, plan);
    var (values, end) := DeAll(c, data, off + 1, [t.inner], depth).value;
    var v := values[0];
    assert values == [v];
    SomeShape(c, v, t);
    if v == VNone {
      DiffersFromTag(data, off, end, 0);
    } else {
      SerLevel(c, v, t, Node([1], [v], [t.inner]));
      RewritesTag(data, off, 1);
      RewritesBoth(data, off, off + 1, end, [1], Collect(Parts(c, values, [t.inner])).value,
                   data[off] == 1, AreCanonical(c, data, off + 1, [t.inner], depth));
    }
  }

  lemma CanonicalLevel(c: Codec, data: Bytes, off: nat, t: FieldType, depth: nat, plan: Plan)
    requires De(c, data, off, t, depth).Some? && Head(c, data, off, t) == Some(plan)
    ensures t.Class? ==> depth > 0
    ensures !plan.kind.AsSome? ==>
      (IsCanonical(c, data, off, t, depth) <==>
          AreCanonical(c, data, plan.next, plan.types, if t.Class? then depth - 1 else depth))
  {
    var rest := OptionsReadAll(c, data, plan.next, plan.types, if t.Class? then depth - 1 else depth);
    if t.Opt? {
      TagRead(c, data, off, t, plan);
      assert OptionsRead(c, data, off, t, depth) == [OptionRead(off, t.inner)] + rest;
      AllCanonicalBoth(data, [OptionRead(off, t.inner)], rest);
    } else {
      assert OptionsRead(c, data, off, t, depth) == [] + rest == rest;
    }
  }

  lemma RewritesBounds(data: Bytes, off: nat, end: nat, b: Option<Bytes>, same: bool)
    requires Rewrites(data, off, end, b, same)
    ensures off <= end <= |data| && b.Some?
  {
  }

  /**
   Everything that can be read can be written again, and the result is the bytes that were
   read if and only if they are canonical; otherwise it differs from them at some byte.
   */
  lemma {:induction false} WriteUndoesReadIffCanonical(c: Codec, data: Bytes, off: nat, t: FieldType, depth: nat)
    requires IsUtf8(c) && IsUnambiguous(c) && off <= |data| && De(c, data, off, t, depth).Some?
    ensures var (v, end) := De(c, data, off, t, depth).value;
            Rewrites(data, off, end, Ser(c, v, t), IsCanonical(c, data, off, t, depth))
    decreases depth, Height(t), 0, 0
  {
    hide Ser, De, DeAll, Shape, Head, Build, IsUtf8, IsUnambiguous, Collect, Rewrites, IsCanonical, AreCanonical;
    var plan := DeHead(c, data, off, t, depth);
    DeLevel(c, data, off, t, depth, plan);
    var depth' := if t.Class? then depth - 1 else depth;
    var (values, end) := DeAll(c, data, plan.next, plan.types, depth').value;
    HeadAdvances(c, data, off, t);
    WriteAllUndoesReadAll(c, data, plan.next, plan.types, depth');
    RewritesBounds(data, plan.next, end, Collect(Parts(c, values, plan.types)),
        AreCanonical(c, data, plan.next, plan.types, depth'));
    if plan.kind.AsSome? {
      SomeHead(c, data, off, t, plan);
      SomeCase(c, data, off, t, depth, plan);
    } else {
      var v := Build(plan.kind, values);
      ShapeUndoesHead(c, data, off, t, values);
      SerLevel(c, v, t, Node(data[off..plan.next], values, plan.types));
      RewritesSame(data, off, plan.next);
      RewritesBoth(data, off, plan.next, end, data[off..plan.next], Collect(Parts(c, values, plan.types)).value, true,
          AreCanonical(c, data, plan.next, plan.types, depth'));
      CanonicalLevel(c, data, off, t, depth, plan);
    }
  }

  lemma CanonicalStep(c: Codec, data: Bytes, off: nat, ts: seq<FieldType>, depth: nat)
    requires ts != [] && De(c, data, off, ts[0], depth).Some?
    ensures AreCanonical(c, data, off, ts, depth) <==>
      IsCanonical(c, data, off, ts[0], depth)
          && AreCanonical(c, data, De(c, data, off, ts[0], depth).value.1, ts[1..], depth)
  {
    var first, rest := OptionsRead(c, data, off, ts[0], depth),
        OptionsReadAll(c, data, De(c, data, off, ts[0], depth).value.1, ts[1..], depth);
    assert OptionsReadAll(c, data, off, ts, depth) == first + rest;
    hide OptionsRead, OptionsReadAll, De;
    AllCanonicalBoth(data, first, rest);
  }

  lemma NothingToRewrite(c: Codec, data: Bytes, off: nat, depth: nat)
    requires off <= |data|
    ensures DeAll(c, data, off, [], depth) == Some(([], off)) && AreCanonical(c, data, off, [], depth)
    ensures Rewrites(data, off, off, Collect(Parts(c, [], [])), true)
  {
    assert data[off..off] == [];
  }

  lemma {:induction false} WriteAllUndoesReadAll(c: Codec, data: Bytes, off: nat, ts: seq<FieldType>, depth: nat)
    requires IsUtf8(c) && IsUnambiguous(c) && off <= |data| && DeAll(c, data, off, ts, depth).Some?
    ensures var (values, end) := DeAll(c, data, off, ts, depth).value;
            Rewrites(data, off, end, Collect(Parts(c, values, ts)), AreCanonical(c, data, off, ts, depth))
    decreases depth, MaxHeight(ts), 1, |ts|
  {
    hide Ser, De, DeAll, Shape, Head, IsUtf8, IsUnambiguous, Collect, Rewrites, IsCanonical, AreCanonical;
    if ts == [] {
      NothingToRewrite(c, data, off, depth);
    } else {
      DeAllFirst(c, data, off, ts, depth);
      var (first, mid) := De(c, data, off, ts[0], depth).value;
      var (rest, end) := DeAll(c, data, mid, ts[1..], depth).value;
      assert ts[0..] == ts;
      DeAllStep(c, data, off, ts, 0, depth);
      var values := [first] + rest;
      WriteUndoesReadIffCanonical(c, data, off, ts[0], depth);
      RewritesBounds(data, off, mid, Ser(c, first, ts[0]), IsCanonical(c, data, off, ts[0], depth));
      WriteAllUndoesReadAll(c, data, mid, ts[1..], depth);
      RewritesBounds(data, mid, end, Collect(Parts(c, rest, ts[1..])), AreCanonical(c, data, mid, ts[1..], depth));
      assert Parts(c, values, ts)[0..] == Parts(c, values, ts);
      assert Parts(c, values, ts)[1..] == Parts(c, rest, ts[1..]);
      CollectStep(Parts(c, values, ts), 0);
      CanonicalStep(c, data, off, ts, depth);
      RewritesBoth(data, off, mid, end, Ser(c, first, ts[0]).value, Collect(Parts(c, rest, ts[1..])).value,
                   IsCanonical(c, data, off, ts[0], depth), AreCanonical(c, data, mid, ts[1..], depth));
    }
  }

  // A condition on the tags alone

  /** No option's payload is an option or an empty tuple. */
  ghost predicate IsPlain(t: FieldType)
    decreases t
  {
    match t
    case Tuple(ts) => ArePlain(ts)
    case List(elem) => IsPlain(elem)
    case Opt(inner) => !inner.Opt? && inner != Tuple([]) && IsPlain(inner)
    case _ => true
  }

  ghost predicate ArePlain(ts: seq<FieldType>)
    decreases ts
  {
    forall i :: 0 <= i < |ts| ==> IsPlain(ts[i])
  }

  ghost predicate IsPlainClass(s: ClassSchema) {
    match s
    case Struct(fields) => ArePlain(FieldTypes(fields))
    case Enum(_, variants) => forall i :: 0 <= i < |variants| && variants[i].Variant? && variants[i].ty.Some? ==>
        IsPlain(variants[i].ty.value)
    case Malformed => true
  }

  ghost predicate HasPlainOptions(c: Codec) {
    forall cls :: cls in c.schema ==> IsPlainClass(c.schema[cls])
  }

  lemma PlanIsPlain(c: Codec, data: Bytes, off: nat, t: FieldType, plan: Plan)
    requires HasPlainOptions(c) && IsPlain(t) && Head(c, data, off, t) == Some(plan)
    ensures ArePlain(plan.types)
  {
    match t
    case Class(name) => assert IsPlainClass(c.schema[name]);
    case List(elem) => assert forall i :: 0 <= i < |plan.types| ==> plan.types[i] == elem;
    case _ =>
  }

  ghost predicate HavePlainPayloads(options: seq<OptionRead>) {
    forall i :: 0 <= i < |options| ==> !options[i].inner.Opt? && options[i].inner != Tuple([])
  }

  lemma {:induction false} OptionsArePlain(c: Codec, data: Bytes, off: nat, t: FieldType, depth: nat)
    requires HasPlainOptions(c) && IsPlain(t)
    ensures HavePlainPayloads(OptionsRead(c, data, off, t, depth))
    decreases depth, Height(t), 0, 0
  {
    if De(c, data, off, t, depth).Some? {
      var plan := DeHead(c, data, off, t, depth);
      PlanIsPlain(c, data, off, t, plan);
      AllOptionsArePlain(c, data, plan.next, plan.types, if t.Class? then depth - 1 else depth);
    }
  }

  lemma {:induction false} AllOptionsArePlain(c: Codec, data: Bytes, off: nat, ts: seq<FieldType>, depth: nat)
    requires HasPlainOptions(c) && ArePlain(ts)
    ensures HavePlainPayloads(OptionsReadAll(c, data, off, ts, depth))
    decreases depth, MaxHeight(ts), 1, |ts|
  {
    if ts != [] {
      OptionsArePlain(c, data, off, ts[0], depth);
      if De(c, data, off, ts[0], depth).Some? {
        AllOptionsArePlain(c, data, De(c, data, off, ts[0], depth).value.1, ts[1..], depth);
      }
    }
  }

  /** Every option tag read is 0 or 1. */
  ghost predicate TagsAreBits(data: Bytes, options: seq<OptionRead>) {
    forall i :: 0 <= i < |options| ==> options[i].off < |data| && data[options[i].off] <= 1
  }

  /**
   For types and schemas in which no option's payload is an option or an empty tuple, the bytes
   come back if and only if every option tag is 0 or 1.
   */
  lemma WriteUndoesReadIffTagsAreBits(c: Codec, data: Bytes, off: nat, t: FieldType, depth: nat)
    requires IsUtf8(c) && IsUnambiguous(c) && HasPlainOptions(c) && IsPlain(t)
    requires off <= |data| && De(c, data, off, t, depth).Some?
    ensures var (v, end) := De(c, data, off, t, depth).value;
            Rewrites(data, off, end, Ser(c, v, t), TagsAreBits(data, OptionsRead(c, data, off, t, depth)))
  {
    hide Ser, De, IsUtf8, IsUnambiguous, OptionsRead, HasPlainOptions, IsPlain, Rewrites;
    var options := OptionsRead(c, data, off, t, depth);
    WriteUndoesReadIffCanonical(c, data, off, t, depth);
    OptionsArePlain(c, data, off, t, depth);
    forall i | 0 <= i < |options|
      ensures IsCanonicalOption(data, options[i]) <==> options[i].off < |data| && data[options[i].off] <= 1
    {
    }
    assert AllCanonical(data, options) <==> TagsAreBits(data, options);
  }

  // Inputs that do not come back

  lemma CollectOne(b: Bytes)
    ensures Collect([Some(b)]) == Some(b)
  {
    assert [Some(b)][1..] == [];
    assert b + [] == b;
  }

  lemma DeAllOneByte(c: Codec, data: Bytes, n: Byte)
    requires |data| == 2 && data[1] == n
    ensures DeAll(c, data, 1, [UInt(8)], 0) == Some(([VNum(n)], 2))
  {
    assert data[1..2] == [n];
    OneByte(n);
    DeLevel(c, data, 1, UInt(8), 0, Plan(2, [], Scalar(VNum(n))));
    assert DeAll(c, data, 2, [], 0) == Some(([], 2));
    assert [UInt(8)][0..] == [UInt(8)] && [UInt(8)][1..] == [];
    DeAllStep(c, data, 1, [UInt(8)], 0, 0);
    assert [VNum(n)] + [] == [VNum(n)];
  }

  /** A present option with a payload of one byte, whatever its nonzero tag, is written with tag 1. */
  lemma TagIsNotKept(c: Codec, tag: Byte, n: Byte)
    requires tag != 0
    ensures De(c, [tag, n], 0, Opt(UInt(8)), 0) == Some((VNum(n), 2))
    ensures Ser(c, VNum(n), Opt(UInt(8))) == Some([1, n])
  {
    var data: Bytes, t := [tag, n], UInt(8);
    assert data[0..1] == [tag] && data[1..2] == [n];
    OneByte(tag);
    OneByte(n);
    DeAllOneByte(c, data, n);
    DeLevel(c, data, 0, Opt(t), 0, Plan(1, [t], AsSome));
    SerLevel(c, VNum(n), t, Node([n], [], []));
    assert Parts(c, [], []) == [] && [n] + [] == [n];
    SerLevel(c, VNum(n), Opt(t), Node([1], [VNum(n)], [t]));
    assert Parts(c, [VNum(n)], [t]) == [Some([n])];
    CollectOne([n]);
    assert [1] + [n] == [1, n];
  }

  lemma PresentNone(c: Codec, data: Bytes, t: FieldType, end: nat)
    requires |data| > 0 && data[0] == 1
    requires (t == Tuple([]) && end == 1) || (t.Opt? && end == 2 && |data| > 1 && data[1] == 0)
    ensures De(c, data, 0, Opt(t), 0) == Some((VNone, end))
  {
    assert data[0..1] == [1];
    OneByte(1);
    if t.Opt? {
      assert data[1..2] == [0];
      OneByte(0);
    }
    assert DeAll(c, data, end, [], 0) == Some(([], end));
    DeLevel(c, data, 1, t, 0, Plan(end, [], Scalar(VNone)));
    assert [t][0..] == [t] && [t][1..] == [];
    DeAllStep(c, data, 1, [t], 0, 0);
    DeLevel(c, data, 0, Opt(t), 0, Plan(1, [t], AsSome));
  }

  /** A present option whose payload is an absent option, or an empty tuple, is read as None and written as absent. */
  lemma PresentNoneIsNotKept(c: Codec, inner: FieldType)
    ensures De(c, [1, 0], 0, Opt(Opt(inner)), 0) == Some((VNone, 2)) && Ser(c, VNone, Opt(Opt(inner))) == Some([0])
    ensures De(c, [1], 0, Opt(Tuple([])), 0) == Some((VNone, 1)) && Ser(c, VNone, Opt(Tuple([]))) == Some([0])
  {
    SomeShape(c, VNone, Opt(Opt(inner)));
    SomeShape(c, VNone, Opt(Tuple([])));
    PresentNone(c, [1, 0], Opt(inner), 2);
    PresentNone(c, [1], Tuple([]), 1);
  }
}
