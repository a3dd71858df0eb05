/**
 The Python class BinarySerializer: `buffer` (the source calls it array) is appended to while writing, `offset` advances
 while reading, and every method is proved against the Borsh format.  A method that returns
 false or None stands for a raised exception.
 */
module BorshSerializer {
  import opened Wrappers
  import opened ByteStrings
  import opened Borsh
  import opened BorshLaws

  // Facts the loops use

  function Prepend(done: Bytes, rest: Option<Bytes>): Option<Bytes> {
    if rest.Some? then Some(done + rest.value) else None
  }

  lemma PrependNothing(rest: Option<Bytes>)
    ensures Prepend([], rest) == rest
  {
    if rest.Some? {
      assert [] + rest.value == rest.value;
    }
  }

  lemma PrependTwice(a: Bytes, b: Bytes, rest: Option<Bytes>)
    ensures Prepend(a, Prepend(b, rest)) == Prepend(a + b, rest)
  {
    if rest.Some? {
      assert a + (b + rest.value) == a + b + rest.value;
    }
  }

  lemma CollectNothing(parts: seq<Option<Bytes>>)
    requires parts == []
    ensures Collect(parts) == Some([])
  {
  }

  lemma PartsOne(c: Codec, v: Value, t: FieldType)
    ensures Collect(Parts(c, [v], [t])) == Ser(c, v, t)
  {
    hide Ser;
    var parts := Parts(c, [v], [t]);
    assert parts == [Ser(c, v, t)];
    assert parts[1..] == [];
    if parts[0].Some? {
      assert parts[0].value + [] == parts[0].value;
    }
  }

  lemma NothingRead(d: Option<(seq<Value>, nat)>)
    ensures Joined([], d) == d
  {
    if d.Some? {
      assert [] + d.value.0 == d.value.0;
    }
  }

  lemma JoinedTwice(values: seq<Value>, v: Value, rest: Option<(seq<Value>, nat)>)
    ensures Joined(values, Joined([v], rest)) == Joined(values + [v], rest)
  {
    if rest.Some? {
      assert values + ([v] + rest.value.0) == values + [v] + rest.value.0;
    }
  }

  lemma SerNoShape(c: Codec, v: Value, t: FieldType)
    ensures Shape(c, v, t).None? ==> Ser(c, v, t).None?
  {
    hide Shape;
  }

  lemma DeNoHead(c: Codec, data: Bytes, off: nat, t: FieldType, depth: nat)
    ensures Head(c, data, off, t).None? || (t.Class? && depth == 0) ==> De(c, data, off, t, depth).None?
  {
    hide Head;
  }

  lemma DeAllNothing(c: Codec, data: Bytes, off: nat, depth: nat)
    ensures DeAll(c, data, off, [], depth) == Some(([], off))
  {
  }

  lemma DeAllFails(c: Codec, data: Bytes, off: nat, ts: seq<FieldType>, j: nat, depth: nat)
    requires j < |ts| && De(c, data, off, ts[j], depth).None?
    ensures DeAll(c, data, off, ts[j..], depth).None?
  {
    hide De;
    assert ts[j..][0] == ts[j];
  }

  lemma SetNoAttrs()
    ensures SetAttrs(map[], [], []) == map[]
  {
  }

  lemma DeAllOne(c: Codec, data: Bytes, off: nat, t: FieldType, depth: nat)
    ensures var d := De(c, data, off, t, depth);
            DeAll(c, data, off, [t], depth) == if d.Some? then Some(([d.value.0], d.value.1)) else None
  {
    hide De;
    assert [t][1..] == [];
    var d := De(c, data, off, t, depth);
    if d.Some? {
      DeAllNothing(c, data, d.value.1, depth);
      assert [d.value.0] + [] == [d.value.0];
    }
  }

  lemma {:induction false} SetAttrsLast(attrs: map<string, Value>, fields: seq<Field>, values: seq<Value>, f: Field,
                                        v: Value)
    requires |fields| == |values|
    ensures SetAttrs(attrs, fields + [f], values + [v]) == SetAttrs(attrs, fields, values)[f.name := v]
    decreases |fields|
  {
    if fields != [] {
      assert (fields + [f])[1..] == fields[1..] + [f] && (values + [v])[1..] == values[1..] + [v];
      SetAttrsLast(attrs[fields[0].name := values[0]], fields[1..], values[1..], f, v);
    }
  }

  // The serializer

  class BinarySerializer {
    const c: Codec
    var buffer: Bytes
    var offset: nat

    constructor (c: Codec)
      ensures this.c == c && buffer == []
    {
      this.c := c;
      buffer := [];
      offset := 0;
    }

    method ReadBytes(n: nat) returns (r: Option<Bytes>)
      modifies this`offset
      ensures r == Borsh.ReadBytes(buffer, old(offset), n)
      ensures offset == if r.Some? then old(offset) + n else old(offset)
    {
      if n + offset > |buffer| {
        return None;
      }
      r := Some(buffer[offset..offset + n]);
      offset := offset + n;
    }

    method SerializeNum(value: int, nBytes: nat) returns (ok: bool)
      modifies this`buffer
      ensures ok <==> SerNum(value, nBytes).Some?
      ensures ok ==> buffer == old(buffer) + SerNum(value, nBytes).value
      ensures old(buffer) <= buffer
    {
      if value < 0 {
        return false;
      }
      var rest := value;
      ghost var done: Bytes := [];
      PrependNothing(SerNum(value, nBytes));
      for i := 0 to nBytes
        invariant rest >= 0 && buffer == old(buffer) + done
        invariant SerNum(value, nBytes) == Prepend(done, SerNum(rest, nBytes - i))
      {
        PrependTwice(done, [rest % 256], SerNum(rest / 256, nBytes - i - 1));
        buffer := buffer + [rest % 256];
        done := done + [rest % 256];
        rest := rest / 256;
      }
      assert done + [] == done;
      return rest == 0;
    }

    method DeserializeNum(nBytes: nat) returns (r: Option<nat>)
      modifies this`offset
      ensures r == ReadNum(buffer, old(offset), nBytes)
      ensures r.Some? ==> offset == old(offset) + nBytes
    {
      var bytes := ReadBytes(nBytes);
      if bytes.None? {
        return None;
      }
      var b := bytes.value;
      var value: nat := 0;
      for k := |b| downto 0
        invariant value == DeNum(b[k..])
      {
        assert b[k..][1..] == b[k + 1..];
        value := value * 256 + b[k];
      }
      assert b[0..] == b;
      return Some(value);
    }

    /** The loop over the items of a tuple or a list, or over the fields of a struct. */
    method SerializeEach(values: seq<Value>, types: seq<FieldType>, ghost v: Value, ghost t: FieldType)
      returns (ok: bool)
      requires |values| == |types| && forall i :: 0 <= i < |values| ==> Below(values[i], types[i], v, t)
      modifies this`buffer
      ensures ok <==> Collect(Parts(c, values, types)).Some?
      ensures ok ==> buffer == old(buffer) + Collect(Parts(c, values, types)).value
      ensures old(buffer) <= buffer
      decreases IsComposite(v), if IsComposite(v) then v else VNone, t, 0
    {
      hide Ser, Shape, Collect;
      ghost var parts := Parts(c, values, types);
      ghost var done: Bytes := [];
      PrependNothing(Collect(parts));
      assert parts[0..] == parts;
      for i := 0 to |values|
        invariant buffer == old(buffer) + done
        invariant Collect(parts) == Prepend(done, Collect(parts[i..]))
      {
        CollectStep(parts, i);
        var okField := SerializeField(values[i], types[i]);
        if !okField {
          return false;
        }
        PrependTwice(done, parts[i].value, Collect(parts[i + 1..]));
        done := done + parts[i].value;
      }
      CollectNothing(parts[|values|..]);
      assert done + [] == done;
      return true;
    }

    /** The branches of `serialize_field` that write no nested field. */
    method SerializeScalar(v: Value, t: FieldType) returns (ok: bool)
      requires t.Bool? || t.UInt? || t.Str? || t.FixedBytes?
      modifies this`buffer
      ensures ok <==> Shape(c, v, t).Some?
      ensures ok ==> Shape(c, v, t).value.values == [] && Shape(c, v, t).value.types == []
      ensures ok ==> buffer == old(buffer) + Shape(c, v, t).value.prefix
      ensures old(buffer) <= buffer
    {
      match t
      case Bool =>
        if !v.VBool? {
          return false;
        }
        ok := SerializeNum(if v.b then 1 else 0, 1);
      case UInt(bits) =>
        var n := AsInt(v);
        if n.None? {
          return false;
        }
        ok := SerializeNum(n.value, bits / 8);
      case Str =>
        if !v.VStr? || c.encode(v.s).None? {
          return false;
        }
        var b := c.encode(v.s).value;
        ok := SerializeNum(|b|, 4);
        if ok {
          buffer := buffer + b;
        }
      case FixedBytes(len) =>
        if !v.VBytes? || |v.bytes| != len {
          return false;
        }
        buffer := buffer + v.bytes;
        return true;
    }

    /** The branches for tuples and lists. */
    method SerializeItems(v: Value, t: FieldType) returns (ok: bool)
      requires t.Tuple? || t.List?
      modifies this`buffer
      ensures ok <==> Ser(c, v, t).Some?
      ensures ok ==> buffer == old(buffer) + Ser(c, v, t).value
      ensures old(buffer) <= buffer
      decreases IsComposite(v), if IsComposite(v) then v else VNone, t, 1
    {
      hide Ser, SerNum;
      ghost var shape := Shape(c, v, t);
      SerNoShape(c, v, t);
      if shape.Some? {
        SerLevel(c, v, t, shape.value);
        CollectNothing(Parts(c, [], []));
      }
      match t
      case Tuple(ts) =>
        if ts == [] {
          return true;
        }
        var items := Items(v);
        if items.None? || |items.value| != |ts| {
          return false;
        }
        ok := SerializeEach(items.value, ts, v, t);
      case List(elem) =>
        var items := Items(v);
        if items.None? {
          return false;
        }
        ok := SerializeNum(|items.value|, 4);
        if ok {
          ok := SerializeEach(items.value, Repeat(elem, |items.value|), v, t);
        }
    }

    method SerializeField(v: Value, t: FieldType) returns (ok: bool)
      modifies this`buffer
      ensures ok <==> Ser(c, v, t).Some?
      ensures ok ==> buffer == old(buffer) + Ser(c, v, t).value
      ensures old(buffer) <= buffer
      decreases IsComposite(v), if IsComposite(v) then v else VNone, t, 2
    {
      hide Ser, ObjectShape, SerNum, SerStr;
      ghost var shape := Shape(c, v, t);
      SerNoShape(c, v, t);
      if shape.Some? {
        SerLevel(c, v, t, shape.value);
        CollectNothing(Parts(c, [], []));
      }
      match t
      case Tuple(_) =>
        ok := SerializeItems(v, t);
      case List(_) =>
        ok := SerializeItems(v, t);
      case Opt(inner) =>
        OneByte(0);
        OneByte(1);
        if v == VNone {
          ok := SerializeNum(0, 1);
        } else {
          ok := SerializeNum(1, 1);
          PartsOne(c, v, inner);
          ok := SerializeField(v, inner);
        }
      case Class(name) =>
        if !v.VObj? || v.cls != name {
          return false;
        }
        ok := SerializeStruct(v);
      case Unsupported =>
        return false;
      case _ =>
        ok := SerializeScalar(v, t);
    }

    method SerializeStruct(obj: Value) returns (ok: bool)
      modifies this`buffer
      ensures ok <==> obj.VObj? && Ser(c, obj, Class(obj.cls)).Some?
      ensures ok ==> buffer == old(buffer) + Ser(c, obj, Class(obj.cls)).value
      ensures old(buffer) <= buffer
      decreases IsComposite(obj), if IsComposite(obj) then obj else VNone, if obj.VObj? then Class(obj.cls)
          else Unsupported, 1
    {
      hide Ser;
      if !obj.VObj? {
        return false;
      }
      ghost var t := Class(obj.cls);
      ghost var shape := Shape(c, obj, t);
      SerNoShape(c, obj, t);
      if shape.Some? {
        SerLevel(c, obj, t, shape.value);
      }
      if obj.cls !in c.schema {
        return false;
      }
      match c.schema[obj.cls]
      case Struct(fields) =>
        if !HasAttrs(obj, fields) {
          return false;
        }
        var values := seq(|fields|, i requires 0 <= i < |fields| => obj.attrs[fields[i].name]);
        assert shape.value == Node([], values, FieldTypes(fields));
        ok := SerializeEach(values, FieldTypes(fields), obj, t);
      case Enum(field, variants) =>
        if field !in obj.attrs || !obj.attrs[field].VStr? {
          return false;
        }
        var name := obj.attrs[field].s;
        var i := FindVariant(variants, name);
        if i.None? {
          return false;
        }
        ok := SerializeNum(i.value, 1);
        if !ok || variants[i.value].ty.None? || name !in obj.attrs {
          return false;
        }
        PartsOne(c, obj.attrs[name], variants[i.value].ty.value);
        ok := SerializeField(obj.attrs[name], variants[i.value].ty.value);
      case Malformed =>
        return false;
    }

    method Serialize(obj: Value) returns (r: Option<Bytes>)
      requires buffer == []
      modifies this`buffer
      ensures r == if obj.VObj? then Ser(c, obj, Class(obj.cls)) else None
    {
      hide Ser;
      var ok := SerializeStruct(obj);
      if !ok {
        return None;
      }
      assert [] + Ser(c, obj, Class(obj.cls)).value == Ser(c, obj, Class(obj.cls)).value;
      return Some(buffer);
    }

    /** The loop over the elements of a tuple or a list. */
    method DeserializeEach(types: seq<FieldType>, depth: nat) returns (r: Option<seq<Value>>)
      modifies this`offset
      ensures var d := DeAll(c, buffer, old(offset), types, depth);
              (r.Some? <==> d.Some?) && (r.Some? ==> r.value == d.value.0 && offset == d.value.1)
      decreases depth, MaxHeight(types), 3, 0
    {
      hide De, DeAll, Head, Shape, Build;
      var values: seq<Value> := [];
      ghost var start := offset;
      assert types[0..] == types;
      NothingRead(DeAll(c, buffer, start, types, depth));
      for i := 0 to |types|
        invariant |values| == i
        invariant DeAll(c, buffer, start, types, depth) == Joined(values, DeAll(c, buffer, offset, types[i..], depth))
      {
        ghost var here := offset;
        ElementHeight(types, i);
        var v := DeserializeField(types[i], depth);
        if v.None? {
          DeAllFails(c, buffer, here, types, i, depth);
          return None;
        }
        DeAllStep(c, buffer, here, types, i, depth);
        JoinedTwice(values, v.value, DeAll(c, buffer, offset, types[i + 1..], depth));
        values := values + [v.value];
      }
      DeAllNothing(c, buffer, offset, depth);
      assert types[|types|..] == [] && values + [] == values;
      return Some(values);
    }

    /** The branches of `deserialize_field` that read no nested field. */
    method DeserializeScalar(t: FieldType) returns (r: Option<Value>)
      requires t.Bool? || t.UInt? || t.Str? || t.FixedBytes?
      modifies this`offset
      ensures var head := Head(c, buffer, old(offset), t);
              (r.Some? <==> head.Some?) && (r.Some? ==> head.value == Plan(offset, [], Scalar(r.value)))
    {
      match t
      case Bool =>
        var b := DeserializeNum(1);
        if b.None? || b.value > 1 {
          return None;
        }
        return Some(VBool(b.value == 1));
      case UInt(bits) =>
        var n := DeserializeNum(bits / 8);
        if n.None? {
          return None;
        }
        return Some(VNum(n.value));
      case Str =>
        var len := DeserializeNum(4);
        if len.None? {
          return None;
        }
        var b := ReadBytes(len.value);
        if b.None? || c.decode(b.value).None? {
          return None;
        }
        return Some(VStr(c.decode(b.value).value));
      case FixedBytes(len) =>
        var b := ReadBytes(len);
        if b.None? {
          return None;
        }
        return Some(VBytes(b.value));
    }

    method DeserializeField(t: FieldType, depth: nat) returns (r: Option<Value>)
      modifies this`offset
      ensures var d := De(c, buffer, old(offset), t, depth);
              (r.Some? <==> d.Some?) && (r.Some? ==> r.value == d.value.0 && offset == d.value.1)
      decreases depth, Height(t), 2, 0
    {
      hide De, DeAll;
      ghost var start := offset;
      DeNoHead(c, buffer, start, t, depth);
      ghost var head := Head(c, buffer, start, t);
      if head.Some? && !t.Class? {
        DeLevel(c, buffer, start, t, depth, head.value);
        DeAllNothing(c, buffer, head.value.next, depth);
      }
      match t
      case Tuple(ts) =>
        if ts == [] {
          return Some(VNone);
        }
        var values := DeserializeEach(ts, depth);
        if values.None? {
          return None;
        }
        return Some(VTuple(values.value));
      case List(elem) =>
        var len := DeserializeNum(4);
        if len.None? {
          return None;
        }
        var values := DeserializeEach(Repeat(elem, len.value), depth);
        if values.None? {
          return None;
        }
        return Some(VList(values.value));
      case Opt(inner) =>
        var tag := DeserializeNum(1);
        if tag.None? {
          return None;
        }
        if tag.value == 0 {
          return Some(VNone);
        }
        DeAllOne(c, buffer, offset, inner, depth);
        r := DeserializeField(inner, depth);
      case Class(name) =>
        if depth == 0 {
          return None;
        }
        r := DeserializeStruct(name, depth);
      case Unsupported =>
        return None;
      case _ =>
        r := DeserializeScalar(t);
    }

    method DeserializeStruct(cls: string, depth: nat) returns (r: Option<Value>)
      requires depth > 0
      modifies this`offset
      ensures var d := De(c, buffer, old(offset), Class(cls), depth);
              (r.Some? <==> d.Some?) && (r.Some? ==> r.value == d.value.0 && offset == d.value.1)
      decreases depth, 1, 1, 0
    {
      hide De, DeAll;
      ghost var start := offset;
      DeNoHead(c, buffer, start, Class(cls), depth);
      ghost var head := Head(c, buffer, start, Class(cls));
      if head.Some? {
        DeLevel(c, buffer, start, Class(cls), depth, head.value);
      }
      if cls !in c.schema {
        return None;
      }
      match c.schema[cls]
      case Struct(fields) =>
        var values := DeserializeFields(fields, depth - 1);
        if values.None? {
          return None;
        }
        return Some(VObj(cls, values.value));
      case Enum(field, variants) =>
        var ord := DeserializeNum(1);
        if ord.None? || ord.value >= |variants| || variants[ord.value].NoVariant? || variants[ord.value].ty.None? {
          return None;
        }
        var variant := variants[ord.value];
        DeAllOne(c, buffer, offset, variant.ty.value, depth - 1);
        var payload := DeserializeField(variant.ty.value, depth - 1);
        if payload.None? {
          return None;
        }
        return Some(VObj(cls, map[field := VStr(variant.name)][variant.name := payload.value]));
      case Malformed =>
        return None;
    }

    /** The loop of `deserialize_struct`: read a field, set the attribute. */
    method DeserializeFields(fields: seq<Field>, depth: nat) returns (r: Option<map<string, Value>>)
      modifies this`offset
      ensures var d := DeAll(c, buffer, old(offset), FieldTypes(fields), depth);
              (r.Some? <==> d.Some?) && (r.Some? ==>
                  r.value == SetAttrs(map[], fields, d.value.0) && offset == d.value.1)
      decreases depth, MaxHeight(FieldTypes(fields)), 3, 0
    {
      hide De, DeAll, Head, Shape, Build, SetAttrs;
      var attrs: map<string, Value> := map[];
      ghost var types := FieldTypes(fields);
      ghost var start, values: seq<Value> := offset, [];
      assert types[0..] == types;
      NothingRead(DeAll(c, buffer, start, types, depth));
      SetNoAttrs();
      for i := 0 to |fields|
        invariant |values| == i && attrs == SetAttrs(map[], fields[..i], values)
        invariant DeAll(c, buffer, start, types, depth) == Joined(values, DeAll(c, buffer, offset, types[i..], depth))
      {
        ghost var here := offset;
        assert types[i] == fields[i].ty;
        ElementHeight(types, i);
        var v := DeserializeField(fields[i].ty, depth);
        if v.None? {
          DeAllFails(c, buffer, here, types, i, depth);
          return None;
        }
        DeAllStep(c, buffer, here, types, i, depth);
        JoinedTwice(values, v.value, DeAll(c, buffer, offset, types[i + 1..], depth));
        SetAttrsLast(map[], fields[..i], values, fields[i], v.value);
        assert fields[..i] + [fields[i]] == fields[..i + 1];
        attrs := attrs[fields[i].name := v.value];
        values := values + [v.value];
      }
      DeAllNothing(c, buffer, offset, depth);
      assert types[|fields|..] == [] && values + [] == values && fields[..|fields|] == fields;
      return Some(attrs);
    }

    method Deserialize(bytes: Bytes, t: FieldType, depth: nat) returns (r: Option<Value>)
      modifies this
      ensures buffer == bytes
      ensures var d := De(c, bytes, 0, t, depth);
              r == if d.Some? && d.value.1 == |bytes| then Some(d.value.0) else None
    {
      hide De;
      buffer := bytes;
      offset := 0;
      r := DeserializeField(t, depth);
      if offset != |bytes| {
        return None;
      }
    }
  }
}
