/**
 The serializer behind the entity debug pages: it walks a value of the serde data model and
 commits one entry to the struct it was given as parent.  The imperative walk is proved equal
 to a function from values to trees.
 */
module EntitySerializer {
  import opened Wrappers
  import opened ByteStrings
  import opened EntityData
  import opened Printing
  import opened Sequences

  /** A value of the serde data model.  Numbers, booleans, characters and strings arrive as their printed form. */
  datatype Data =
    | Printed(text: string)
    | ByteString(bytes: Bytes)
    | Nothing
    | Just(inner: Data)
    | Unit
    | UnitVariant(variant: string)
    | Newtype(inner: Data)
    | NewtypeVariant(variant: string, inner: Data)
    | Sequence(items: seq<Data>)  // also tuples and tuple structs
    | TupleVariant(variant: string, items: seq<Data>)
    | Map(pairs: seq<Pair>)
    | Struct(fields: seq<Field>)
    | StructVariant(variant: string, fields: seq<Field>)

  datatype Pair = Pair(key: Data, value: Data)

  datatype Field = Field(name: string, value: Data)

  // The tree of a value

  function KeyOf(key: Entity): string {
    if key.Text? then key.text else "invalid_key_type"
  }

  function Wrapped(outer: Option<string>, value: Entity): Entity {
    if outer.Some? then Record([Entry(outer.value, value)]) else value
  }

  function Tree(v: Data): Entity {
    match v
    case Printed(text) => Text(text)
    case ByteString(bytes) => Text(Hex(bytes))
    case Nothing => Text("null")
    case Just(inner) => Tree(inner)
    case Unit => Text("()")
    case UnitVariant(variant) => Text(variant)
    case Newtype(inner) => Tree(inner)
    case NewtypeVariant(variant, inner) => Record([Entry(variant, Tree(inner))])
    case Sequence(items) => Record(Numbered(items))
    case TupleVariant(variant, items) => Wrapped(Some(variant), Record(Numbered(items)))
    case Map(pairs) => Record(Keyed(pairs))
    case Struct(fields) => Record(Named(fields))
    case StructVariant(variant, fields) => Wrapped(Some(variant), Record(Named(fields)))
  }

  /** Array elements are named by their position. */
  function Numbered(items: seq<Data>): (entries: seq<Entry>)
    ensures |entries| == |items|
    ensures forall i :: 0 <= i < |items| ==> entries[i] == Entry(Decimal(i), Tree(items[i]))
  {
    seq(|items|, i requires 0 <= i < |items| => Entry(Decimal(i), Tree(items[i])))
  }

  function Named(fields: seq<Field>): (entries: seq<Entry>)
    ensures |entries| == |fields|
    ensures forall i :: 0 <= i < |fields| ==> entries[i] == Entry(fields[i].name, Tree(fields[i].value))
  {
    seq(|fields|, i requires 0 <= i < |fields| => Entry(fields[i].name, Tree(fields[i].value)))
  }

  function PairEntry(p: Pair): Entry {
    Entry(KeyOf(Tree(p.key)), Tree(p.value))
  }

  function Keyed(pairs: seq<Pair>): (entries: seq<Entry>)
    ensures |entries| == |pairs|
    ensures forall i :: 0 <= i < |pairs| ==> entries[i] == PairEntry(pairs[i])
  {
    seq(|pairs|, i requires 0 <= i < |pairs| => PairEntry(pairs[i]))
  }

  // Where the scalars of a value end up

  /** A displayed text, or None for an empty record, with the names that lead to it. */
  datatype Located = Located(path: seq<string>, text: Option<string>)

  /** What is found below a record. */
  function Within(path: seq<string>, parts: seq<seq<Located>>): seq<Located> {
    if parts == [] then [Located(path, None)] else Flat(parts)
  }

  /** The texts of a tree, in the order they are displayed. */
  function TextsOf(e: Entity, path: seq<string>): seq<Located> {
    match e
    case Text(text) => [Located(path, Some(text))]
    case Record(entries) => Within(path, seq(|entries|,
        i requires 0 <= i < |entries| => TextsOf(entries[i].value, path + [entries[i].name])))
  }

  /** What a scalar is displayed as; options and newtypes are transparent. */
  function ScalarText(v: Data): Option<string> {
    match v
    case Printed(text) => Some(text)
    case ByteString(bytes) => Some(Hex(bytes))
    case Nothing => Some("null")
    case Unit => Some("()")
    case UnitVariant(variant) => Some(variant)
    case Just(inner) => ScalarText(inner)
    case Newtype(inner) => ScalarText(inner)
    case _ => None
  }

  function KeyName(v: Data): string {
    if ScalarText(v).Some? then ScalarText(v).value else "invalid_key_type"
  }

  /** The scalars and empty containers of a value, depth first, each with its variants, fields, keys and positions. */
  function ScalarsOf(v: Data, path: seq<string>): seq<Located> {
    match v
    case Just(inner) => ScalarsOf(inner, path)
    case Newtype(inner) => ScalarsOf(inner, path)
    case NewtypeVariant(variant, inner) => ScalarsOf(inner, path + [variant])
    case Sequence(items) =>
        Within(path, seq(|items|, i requires 0 <= i < |items| => ScalarsOf(items[i], path + [Decimal(i)])))
    case TupleVariant(variant, items) =>
        Within(path + [variant],
            seq(|items|, i requires 0 <= i < |items| => ScalarsOf(items[i], path + [variant] + [Decimal(i)])))
    case Map(pairs) => Within(path, seq(|pairs|,
        i requires 0 <= i < |pairs| => ScalarsOf(pairs[i].value, path + [KeyName(pairs[i].key)])))
    case Struct(fields) => Within(path, seq(|fields|,
        i requires 0 <= i < |fields| => ScalarsOf(fields[i].value, path + [fields[i].name])))
    case StructVariant(variant, fields) =>
        Within(path + [variant], seq(|fields|, i requires 0 <= i < |fields| =>
            ScalarsOf(fields[i].value, path + [variant] + [fields[i].name])))
    case _ => [Located(path, Some(KeyName(v)))]
  }

  lemma {:induction false} KeyNameIsDisplayed(v: Data)
    ensures KeyName(v) == KeyOf(Tree(v))
    ensures ScalarText(v).Some? <==> Tree(v).Text?
  {
    match v
    case Just(inner) => KeyNameIsDisplayed(inner);
    case Newtype(inner) => KeyNameIsDisplayed(inner);
    case _ =>
  }

  lemma RecordTexts(entries: seq<Entry>, path: seq<string>, parts: seq<seq<Located>>)
    requires |parts| == |entries| && forall i :: 0 <= i < |entries| ==>
      parts[i] == TextsOf(entries[i].value, path + [entries[i].name])
    ensures TextsOf(Record(entries), path) == Within(path, parts)
  {
    assert seq(|entries|, i requires 0 <= i < |entries| => TextsOf(entries[i].value, path + [entries[i].name])) ==
        parts;
  }

  lemma WrappedTexts(name: string, e: Entity, path: seq<string>)
    ensures TextsOf(Record([Entry(name, e)]), path) == TextsOf(e, path + [name])
  {
    RecordTexts([Entry(name, e)], path, [TextsOf(e, path + [name])]);
    FlatOne(TextsOf(e, path + [name]));
  }

  /**
   Every scalar and every empty container is displayed, once, in order, under the names that lead
   to it, and nothing else is.
   */
  lemma {:induction false} TreeKeepsEveryScalar(v: Data, path: seq<string>)
    ensures TextsOf(Tree(v), path) == ScalarsOf(v, path)
    decreases v, 1
  {
    match v
    case Just(inner) => TreeKeepsEveryScalar(inner, path);
    case Newtype(inner) => TreeKeepsEveryScalar(inner, path);
    case NewtypeVariant(variant, inner) =>
      WrappedTexts(variant, Tree(inner), path);
      TreeKeepsEveryScalar(inner, path + [variant]);
    case Sequence(items) => ItemsKeepScalars(v, items, path);
    case TupleVariant(variant, items) =>
      WrappedTexts(variant, Record(Numbered(items)), path);
      ItemsKeepScalars(v, items, path + [variant]);
    case Map(pairs) => PairsKeepScalars(v, pairs, path);
    case Struct(fields) => FieldsKeepScalars(v, fields, path);
    case StructVariant(variant, fields) =>
      WrappedTexts(variant, Record(Named(fields)), path);
      FieldsKeepScalars(v, fields, path + [variant]);
    case _ => KeyNameIsDisplayed(v);
  }

  lemma {:induction false} ItemsKeepScalars(v: Data, items: seq<Data>, path: seq<string>)
    requires forall i :: 0 <= i < |items| ==> items[i] < v
    ensures TextsOf(Record(Numbered(items)), path) ==
        Within(path, seq(|items|, i requires 0 <= i < |items| => ScalarsOf(items[i], path + [Decimal(i)])))
    decreases v, 0
  {
    forall i | 0 <= i < |items|
      ensures TextsOf(Tree(items[i]), path + [Decimal(i)]) == ScalarsOf(items[i], path + [Decimal(i)])
    {
      TreeKeepsEveryScalar(items[i], path + [Decimal(i)]);
    }
    RecordTexts(Numbered(items), path,
        seq(|items|, i requires 0 <= i < |items| => ScalarsOf(items[i], path + [Decimal(i)])));
  }

  lemma {:induction false} FieldsKeepScalars(v: Data, fields: seq<Field>, path: seq<string>)
    requires forall i :: 0 <= i < |fields| ==> fields[i].value < v
    ensures TextsOf(Record(Named(fields)), path) ==
        Within(path, seq(|fields|, i requires 0 <= i < |fields| => ScalarsOf(fields[i].value, path + [fields[i].name])))
    decreases v, 0
  {
    forall i | 0 <= i < |fields|
      ensures TextsOf(Tree(fields[i].value), path + [fields[i].name]) ==
          ScalarsOf(fields[i].value, path + [fields[i].name])
    {
      TreeKeepsEveryScalar(fields[i].value, path + [fields[i].name]);
    }
    RecordTexts(Named(fields), path,
        seq(|fields|, i requires 0 <= i < |fields| => ScalarsOf(fields[i].value, path + [fields[i].name])));
  }

  lemma {:induction false} PairsKeepScalars(v: Data, pairs: seq<Pair>, path: seq<string>)
    requires forall i :: 0 <= i < |pairs| ==> pairs[i].value < v
    ensures TextsOf(Record(Keyed(pairs)), path) ==
        Within(path,
            seq(|pairs|, i requires 0 <= i < |pairs| => ScalarsOf(pairs[i].value, path + [KeyName(pairs[i].key)])))
    decreases v, 0
  {
    forall i | 0 <= i < |pairs|
      ensures TextsOf(Tree(pairs[i].value), path + [KeyOf(Tree(pairs[i].key))]) ==
          ScalarsOf(pairs[i].value, path + [KeyName(pairs[i].key)])
    {
      KeyNameIsDisplayed(pairs[i].key);
      TreeKeepsEveryScalar(pairs[i].value, path + [KeyName(pairs[i].key)]);
    }
    RecordTexts(Keyed(pairs), path,
        seq(|pairs|, i requires 0 <= i < |pairs| => ScalarsOf(pairs[i].value, path + [KeyName(pairs[i].key)])));
  }

  // The serializer

  class EntityStruct {
    var entries: seq<Entry>

    constructor ()
      ensures entries == []
    {
      entries := [];
    }

    method Push(e: Entry)
      modifies this
      ensures entries == old(entries) + [e]
    {
      entries := entries + [e];
    }
  }

  /** Upon commit the value is written to the key at this parent. */
  datatype Serializer = Serializer(parent: EntityStruct, key: string)

  method Commit(s: Serializer, value: Entity)
    modifies s.parent
    ensures s.parent.entries == old(s.parent.entries) + [Entry(s.key, value)]
  {
    s.parent.Push(Entry(s.key, value));
  }

  /** Serializer for structs, maps, tuples and arrays: children are collected, then committed as one value. */
  class StructSerializer {
    const parent: Serializer
    const children: EntityStruct
    const outerKey: Option<string>
    var index: nat

    constructor (parent: Serializer, outerKey: Option<string>)
      ensures this.parent == parent && this.outerKey == outerKey && index == 0
      ensures fresh(children) && children.entries == []
    {
      this.parent, this.outerKey, index := parent, outerKey, 0;
      children := new EntityStruct();
    }

    method PushChild() returns (s: Serializer)
      modifies this
      ensures s == Serializer(children, Decimal(old(index))) && index == old(index) + 1
    {
      s := Serializer(children, Decimal(index));
      index := index + 1;
    }

    method CommitChildren()
      requires parent.parent != children
      modifies parent.parent
      ensures parent.parent.entries ==
          old(parent.parent.entries) + [Entry(parent.key, Wrapped(outerKey, Record(children.entries)))]
    {
      var value := Record(children.entries);
      if outerKey.Some? {
        Commit(parent, Record([Entry(outerKey.value, value)]));
      } else {
        Commit(parent, value);
      }
    }
  }

  /** Serializing pushes exactly one entry onto the parent, the tree of the value, and leaves earlier entries alone. */
  method Serialize(v: Data, s: Serializer)
    modifies s.parent
    ensures s.parent.entries == old(s.parent.entries) + [Entry(s.key, Tree(v))]
    decreases v, 1
  {
    match v
    case Printed(text) => Commit(s, Text(text));
    case ByteString(bytes) => Commit(s, Text(Hex(bytes)));
    case Nothing => Commit(s, Text("null"));
    case Just(inner) => Serialize(inner, s);
    case Unit => Commit(s, Text("()"));
    case UnitVariant(variant) => Commit(s, Text(variant));
    case Newtype(inner) => Serialize(inner, s);
    case NewtypeVariant(variant, inner) =>
      var child := new StructSerializer(s, None);
      Serialize(inner, Serializer(child.children, variant));
      assert child.children.entries == [Entry(variant, Tree(inner))];
      child.CommitChildren();
    case Sequence(items) => SerializeItems(v, items, s, None);
    case TupleVariant(variant, items) => SerializeItems(v, items, s, Some(variant));
    case Map(pairs) => SerializePairs(v, pairs, s);
    case Struct(fields) => SerializeFields(v, fields, s, None);
    case StructVariant(variant, fields) => SerializeFields(v, fields, s, Some(variant));
  }

  method SerializeItems(ghost v: Data, items: seq<Data>, s: Serializer, outerKey: Option<string>)
    requires forall i :: 0 <= i < |items| ==> items[i] < v
    modifies s.parent
    ensures s.parent.entries == old(s.parent.entries) + [Entry(s.key, Wrapped(outerKey, Record(Numbered(items))))]
    decreases v, 0
  {
    hide Tree, Decimal;
    var b := new StructSerializer(s, outerKey);
    for i := 0 to |items|
      invariant s.parent.entries == old(s.parent.entries)
      invariant b.index == i && b.children.entries == Numbered(items)[..i]
    {
      assert Numbered(items)[..i + 1] == Numbered(items)[..i] + [Entry(Decimal(i), Tree(items[i]))];
      var child := b.PushChild();
      Serialize(items[i], child);
    }
    assert Numbered(items)[..|items|] == Numbered(items);
    b.CommitChildren();
  }

  method SerializeFields(ghost v: Data, fields: seq<Field>, s: Serializer, outerKey: Option<string>)
    requires forall i :: 0 <= i < |fields| ==> fields[i].value < v
    modifies s.parent
    ensures s.parent.entries == old(s.parent.entries) + [Entry(s.key, Wrapped(outerKey, Record(Named(fields))))]
    decreases v, 0
  {
    var b := new StructSerializer(s, outerKey);
    for i := 0 to |fields|
      invariant s.parent.entries == old(s.parent.entries)
      invariant b.children.entries == Named(fields)[..i]
    {
      Serialize(fields[i].value, Serializer(b.children, fields[i].name));
    }
    assert Named(fields)[..|fields|] == Named(fields);
    b.CommitChildren();
  }

  /** A map key is serialized on its own first; only a text can become a name. */
  method SerializePairs(ghost v: Data, pairs: seq<Pair>, s: Serializer)
    requires forall i :: 0 <= i < |pairs| ==> pairs[i].key < v && pairs[i].value < v
    modifies s.parent
    ensures s.parent.entries == old(s.parent.entries) + [Entry(s.key, Record(Keyed(pairs)))]
    decreases v, 0
  {
    var b := new StructSerializer(s, None);
    for i := 0 to |pairs|
      invariant s.parent.entries == old(s.parent.entries)
      invariant b.children.entries == Keyed(pairs)[..i]
    {
      var keyData := new EntityStruct();
      Serialize(pairs[i].key, Serializer(keyData, ""));
      var key := KeyOf(keyData.entries[0].value);
      Serialize(pairs[i].value, Serializer(b.children, key));
    }
    assert Keyed(pairs)[..|pairs|] == Keyed(pairs);
    b.CommitChildren();
  }

  /** `serialize_entity`: there is an entry to return, for every value. */
  method SerializeEntity(v: Data) returns (r: Entity)
    ensures r == Tree(v)
  {
    var data := new EntityStruct();
    Serialize(v, Serializer(data, ""));
    r := data.entries[0].value;
  }
}
