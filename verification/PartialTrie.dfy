/**
 PartialStateParser: a bag of trie nodes and values, keyed by hash, is turned back into a tree
 after its root has been found.

 Hashing, the binary form of nodes and the printing of hashes are parameters.
 */
module PartialTrie {
  import opened Wrappers
  import opened ByteStrings
  import opened EntityData
  import opened Nibbles
  import opened Printing
  import opened Sequences

  type Hash = Bytes

  datatype Child = Child(index: nat, hash: Hash)

  /** RawTrieNode: a node refers to its children and its value by hash. */
  datatype RawNode =
    | Leaf(extension: Bytes, value: Hash)
    | BranchNoValue(children: seq<Child>)
    | BranchWithValue(value: Hash, children: seq<Child>)
    | Extension(extension: Bytes, child: Hash)

  /** The trie that a partial state is taken from. */
  datatype Trie =
    | LeafOf(path: Path, value: Bytes)
    | BranchOf(ownValue: Option<Bytes>, slots: seq<Slot>)
    | ExtensionOf(path: Path, child: Trie)

  datatype Slot = Slot(index: nat, child: Trie)

  datatype Format = Format(
    hash: Bytes -> Hash,
    decode: Bytes -> Option<RawNode>,
    blobOf: Trie -> Bytes,
    showHash: Hash -> string)

  function HashOf(k: Format, t: Trie): Hash {
    k.hash(k.blobOf(t))
  }

  function ChildrenOf(k: Format, slots: seq<Slot>): (r: seq<Child>)
    ensures |r| == |slots|
    ensures forall i :: 0 <= i < |slots| ==> r[i] == Child(slots[i].index, HashOf(k, slots[i].child))
  {
    seq(|slots|, i requires 0 <= i < |slots| => Child(slots[i].index, HashOf(k, slots[i].child)))
  }

  function RawOf(k: Format, t: Trie): RawNode {
    match t
    case LeafOf(path, value) => Leaf(Encoded(path, true), k.hash(value))
    case BranchOf(None, slots) => BranchNoValue(ChildrenOf(k, slots))
    case BranchOf(Some(value), slots) => BranchWithValue(k.hash(value), ChildrenOf(k, slots))
    case ExtensionOf(path, child) => Extension(Encoded(path, false), HashOf(k, child))
  }

  function Subs(t: Trie): set<Trie> {
    match t
    case LeafOf(_, _) => {t}
    case BranchOf(_, slots) => {t} + set i, s | 0 <= i < |slots| && s in Subs(slots[i].child) :: s
    case ExtensionOf(_, child) => {t} + Subs(child)
  }

  /** The blobs of this trie's nodes decode to the nodes they were made from; nothing is asked of other tries. */
  ghost predicate IsFormat(k: Format, root: Trie) {
    forall t :: t in Subs(root) ==> k.decode(k.blobOf(t)) == Some(RawOf(k, t))
  }

  // The parser

  function ChildHashes(children: seq<Child>): (r: seq<Hash>)
    ensures |r| == |children| && forall i :: 0 <= i < |children| ==> r[i] == children[i].hash
  {
    seq(|children|, i requires 0 <= i < |children| => children[i].hash)
  }

  function Listed(node: RawNode): seq<Hash> {
    match node
    case Leaf(_, value) => [value]
    case BranchNoValue(children) => ChildHashes(children)
    case BranchWithValue(value, children) => ChildHashes(children) + [value]
    case Extension(_, child) => [child]
  }

  /** `detect_possible_children_of`: a value may happen to decode as a node. */
  function PossibleChildren(k: Format, data: Bytes): seq<Hash> {
    match k.decode(data)
    case None => []
    case Some(node) => Listed(node)
  }

  /** The hashes that no stored blob lists. */
  function Unlisted(k: Format, nodes: map<Hash, Bytes>): set<Hash> {
    set h | h in nodes && forall g :: g in nodes ==> h !in PossibleChildren(k, nodes[g])
  }

  /** The hashes that none of the blobs under these hashes lists. */
  ghost function UnlistedBy(k: Format, nodes: map<Hash, Bytes>, seen: set<Hash>): set<Hash> {
    set h | h in nodes && forall g :: g in seen && g in nodes ==> h !in PossibleChildren(k, nodes[g])
  }

  lemma UnlistedByOneMore(k: Format, nodes: map<Hash, Bytes>, seen: set<Hash>, g: Hash)
    requires g in nodes
    ensures UnlistedBy(k, nodes, seen + {g}) == UnlistedBy(k, nodes, seen) - set h | h in PossibleChildren(k, nodes[g])
  {
    hide PossibleChildren;
  }

  lemma UnlistedByAll(k: Format, nodes: map<Hash, Bytes>)
    ensures UnlistedBy(k, nodes, {}) == nodes.Keys && UnlistedBy(k, nodes, nodes.Keys) == Unlisted(k, nodes)
  {
    hide PossibleChildren;
  }

  method RemoveListed(hashes: set<Hash>, children: seq<Hash>) returns (left: set<Hash>)
    ensures left == hashes - set h | h in children
  {
    left := hashes;
    for i := 0 to |children|
      invariant forall h :: h in left <==> h in hashes && h !in children[..i]
    {
      assert children[..i + 1] == children[..i] + [children[i]];
      left := left - {children[i]};
    }
    assert children[..|children|] == children;
  }

  lemma SingletonIs(s: set<Hash>, h: Hash)
    requires h in s && |s| == 1
    ensures s == {h}
  {
    assert |s - {h}| == 0;
  }

  method FindRoot(k: Format, nodes: map<Hash, Bytes>) returns (root: Option<Hash>)
    ensures root.Some? ==> Unlisted(k, nodes) == {root.value}
    ensures root.None? ==> |Unlisted(k, nodes)| != 1
  {
    hide PossibleChildren, Unlisted, UnlistedBy;
    var notSeen := nodes.Keys;
    var todo := nodes.Keys;
    UnlistedByAll(k, nodes);
    assert nodes.Keys - todo == {};
    while todo != {}
      invariant todo <= nodes.Keys && notSeen == UnlistedBy(k, nodes, nodes.Keys - todo)
      decreases |todo|
    {
      var g :| g in todo;
      UnlistedByOneMore(k, nodes, nodes.Keys - todo, g);
      notSeen := RemoveListed(notSeen, PossibleChildren(k, nodes[g]));
      assert nodes.Keys - todo + {g} == nodes.Keys - (todo - {g});
      todo := todo - {g};
    }
    assert nodes.Keys - {} == nodes.Keys;
    if |notSeen| != 1 {
      return None;
    }
    var h :| h in notSeen;
    SingletonIs(notSeen, h);
    return Some(h);
  }

  // What a partial state holds

  function OwnValue(t: Trie): set<Bytes> {
    match t
    case LeafOf(_, value) => {value}
    case BranchOf(Some(value), _) => {value}
    case _ => {}
  }

  function DirectChildren(t: Trie): set<Trie> {
    match t
    case LeafOf(_, _) => {}
    case BranchOf(_, slots) => set i | 0 <= i < |slots| :: slots[i].child
    case ExtensionOf(_, child) => {child}
  }

  /** All blobs of the trie: its nodes and its values. */
  function Blobs(k: Format, root: Trie): set<Bytes> {
    (set s | s in Subs(root) :: k.blobOf(s)) + (set s, v | s in Subs(root) && v in OwnValue(s) :: v)
  }

  ghost predicate IsInjectiveOn(k: Format, blobs: set<Bytes>) {
    forall a, b :: a in blobs && b in blobs && k.hash(a) == k.hash(b) ==> a == b
  }

  ghost predicate IsPresent(k: Format, nodes: map<Hash, Bytes>, s: Trie) {
    HashOf(k, s) in nodes
  }

  /**
   The map holds part of the trie: blobs of the trie under their hashes, the root among them,
   and with every other blob a node that refers to it.
   */
  ghost predicate IsPartialState(k: Format, nodes: map<Hash, Bytes>, root: Trie) {
    && (forall h :: h in nodes ==> nodes[h] in Blobs(k, root) && h == k.hash(nodes[h]))
    && IsPresent(k, nodes, root)
    && (forall h :: h in nodes && h != HashOf(k, root) ==>
          exists s :: s in Subs(root) && IsPresent(k, nodes, s) && h in Listed(RawOf(k, s)))
  }

  lemma SelfIsSub(t: Trie)
    ensures t in Subs(t)
  {
  }

  lemma {:induction false} ChildIsSub(root: Trie, s: Trie, c: Trie)
    requires s in Subs(root) && c in DirectChildren(s)
    ensures c in Subs(root)
    decreases root
  {
    if s == root {
      SelfIsSub(c);
    } else {
      match root
      case BranchOf(_, slots) =>
        var i :| 0 <= i < |slots| && s in Subs(slots[i].child);
        ChildIsSub(slots[i].child, s, c);
      case ExtensionOf(_, child) => ChildIsSub(child, s, c);
    }
  }

  /** A trie is not part of any of its parts. */
  lemma {:induction false} ProperSubIsSmaller(root: Trie, s: Trie)
    requires s in Subs(root)
    ensures s == root || s < root
    decreases root
  {
    match root
    case LeafOf(_, _) =>
    case BranchOf(_, slots) =>
      if s != root {
        var i :| 0 <= i < |slots| && s in Subs(slots[i].child);
        ProperSubIsSmaller(slots[i].child, s);
      }
    case ExtensionOf(_, child) =>
      if s != root {
        ProperSubIsSmaller(child, s);
      }
  }

  lemma NodeBlobIn(k: Format, root: Trie, s: Trie)
    requires s in Subs(root)
    ensures k.blobOf(s) in Blobs(k, root) && OwnValue(s) <= Blobs(k, root)
  {
  }

  lemma EqualHashes(k: Format, root: Trie, a: Bytes, b: Bytes)
    requires IsInjectiveOn(k, Blobs(k, root)) && a in Blobs(k, root) && b in Blobs(k, root) && k.hash(a) == k.hash(b)
    ensures a == b
  {
  }

  lemma DecodesTo(k: Format, root: Trie, s: Trie)
    requires IsFormat(k, root) && s in Subs(root)
    ensures k.decode(k.blobOf(s)) == Some(RawOf(k, s))
  {
  }

  lemma SamePath(p: Path, q: Path, isLeaf: bool)
    requires Encoded(p, isLeaf) == Encoded(q, isLeaf)
    ensures p == q
  {
    DecodeUndoesEncode(p, isLeaf);
    DecodeUndoesEncode(q, isLeaf);
  }

  /** Equal nodes of one trie carry equal subtries: hashes are followed down to the leaves. */
  lemma {:induction false} SameBlobSameTrie(k: Format, root: Trie, s: Trie, t: Trie)
    requires IsFormat(k, root) && IsInjectiveOn(k, Blobs(k, root)) && s in Subs(root) && t in Subs(root)
    requires k.blobOf(s) == k.blobOf(t)
    ensures s == t
    decreases s
  {
    hide Blobs, IsInjectiveOn, Subs;
    DecodesTo(k, root, s);
    DecodesTo(k, root, t);
    NodeBlobIn(k, root, s);
    NodeBlobIn(k, root, t);
    match s
    case LeafOf(path, value) =>
      SamePath(path, t.path, true);
      EqualHashes(k, root, value, t.value);
    case BranchOf(_, slots) =>
      assert ChildrenOf(k, slots) == ChildrenOf(k, t.slots);
      if s.ownValue.Some? {
        EqualHashes(k, root, s.ownValue.value, t.ownValue.value);
      }
      forall i | 0 <= i < |slots|
        ensures slots[i] == t.slots[i]
      {
        assert ChildrenOf(k, slots)[i] == ChildrenOf(k, t.slots)[i];
        SameHashSameTrie(k, root, s, slots[i].child, t, t.slots[i].child);
      }
    case ExtensionOf(path, child) =>
      SamePath(path, t.path, false);
      SameHashSameTrie(k, root, s, child, t, t.child);
  }

  lemma {:induction false} SameHashSameTrie(k: Format, root: Trie, s: Trie, c: Trie, t: Trie, d: Trie)
    requires IsFormat(k, root) && IsInjectiveOn(k, Blobs(k, root)) && s in Subs(root) && t in Subs(root)
    requires c in DirectChildren(s) && d in DirectChildren(t) && HashOf(k, c) == HashOf(k, d) && c < s
    ensures c == d
    decreases s, 0
  {
    hide Blobs, IsInjectiveOn, Subs;
    ChildIsSub(root, s, c);
    ChildIsSub(root, t, d);
    NodeBlobIn(k, root, c);
    NodeBlobIn(k, root, d);
    EqualHashes(k, root, k.blobOf(c), k.blobOf(d));
    SameBlobSameTrie(k, root, c, d);
  }

  lemma ListedIsChildOrValue(k: Format, s: Trie, h: Hash)
    requires h in Listed(RawOf(k, s))
    ensures (exists c :: c in DirectChildren(s) && HashOf(k, c) == h) || exists v :: v in OwnValue(s) && k.hash(v) == h
  {
    var listed := Listed(RawOf(k, s));
    match s
    case LeafOf(_, value) => assert value in OwnValue(s);
    case BranchOf(_, slots) =>
      var i :| 0 <= i < |listed| && listed[i] == h;
      if i < |slots| {
        assert slots[i].child in DirectChildren(s);
      } else {
        assert s.ownValue.value in OwnValue(s);
      }
    case ExtensionOf(_, child) => assert child in DirectChildren(s);
  }

  lemma ChildIsSmaller(s: Trie, c: Trie)
    requires c in DirectChildren(s)
    ensures c < s
  {
  }

  /** No node of the trie has the root as a child node. */
  lemma RootIsNoChild(k: Format, root: Trie, s: Trie, c: Trie)
    requires IsFormat(k, root) && IsInjectiveOn(k, Blobs(k, root)) && s in Subs(root) && c in DirectChildren(s)
    ensures HashOf(k, c) != HashOf(k, root)
  {
    if HashOf(k, c) == HashOf(k, root) {
      hide Blobs, IsInjectiveOn, Subs, DirectChildren;
      ChildIsSub(root, s, c);
      SelfIsSub(root);
      NodeBlobIn(k, root, c);
      NodeBlobIn(k, root, root);
      EqualHashes(k, root, k.blobOf(c), k.blobOf(root));
      SameBlobSameTrie(k, root, c, root);
      ProperSubIsSmaller(root, s);
      ChildIsSmaller(s, c);
    }
  }

  ghost predicate IsNodeBlob(k: Format, root: Trie, blob: Bytes) {
    exists s :: s in Subs(root) && k.blobOf(s) == blob
  }

  /**
   A value gets in the way: a present node's value hashes to the root, or a stored value decodes as a
   node listing the root.
   */
  ghost predicate ValueHidesRoot(k: Format, nodes: map<Hash, Bytes>, root: Trie) {
    || (exists s, v :: s in Subs(root) && IsPresent(k, nodes, s) && v in OwnValue(s) && k.hash(v) == HashOf(k, root))
    || (exists h :: h in nodes && !IsNodeBlob(k, root, nodes[h]) && HashOf(k, root) in PossibleChildren(k, nodes[h]))
  }

  lemma StoredNode(k: Format, nodes: map<Hash, Bytes>, root: Trie, s: Trie)
    requires IsFormat(k, root) && IsInjectiveOn(k, Blobs(k, root)) && IsPartialState(k, nodes, root)
        && s in Subs(root) && IsPresent(k, nodes, s)
    ensures nodes[HashOf(k, s)] == k.blobOf(s)
    ensures PossibleChildren(k, nodes[HashOf(k, s)]) == Listed(RawOf(k, s))
  {
    hide Blobs, Subs;
    NodeBlobIn(k, root, s);
    EqualHashes(k, root, nodes[HashOf(k, s)], k.blobOf(s));
  }

  /** Nothing but the root can be left over. */
  lemma OnlyRootIsUnlisted(k: Format, nodes: map<Hash, Bytes>, root: Trie)
    requires IsFormat(k, root) && IsInjectiveOn(k, Blobs(k, root)) && IsPartialState(k, nodes, root)
    ensures Unlisted(k, nodes) <= {HashOf(k, root)}
  {
    forall h | h in Unlisted(k, nodes)
      ensures h == HashOf(k, root)
    {
      if h != HashOf(k, root) {
        var s :| s in Subs(root) && IsPresent(k, nodes, s) && h in Listed(RawOf(k, s));
        StoredNode(k, nodes, root, s);
      }
    }
  }

  lemma ValueIsListed(k: Format, s: Trie, v: Bytes)
    requires v in OwnValue(s)
    ensures k.hash(v) in Listed(RawOf(k, s))
  {
    if s.BranchOf? {
      assert Listed(RawOf(k, s))[|s.slots|] == k.hash(v);
    }
  }

  lemma NodeDoesNotListRoot(k: Format, nodes: map<Hash, Bytes>, root: Trie, s: Trie)
    requires IsFormat(k, root) && IsInjectiveOn(k, Blobs(k, root)) && s in Subs(root) && IsPresent(k, nodes, s)
    requires !ValueHidesRoot(k, nodes, root)
    ensures HashOf(k, root) !in PossibleChildren(k, k.blobOf(s))
  {
    if HashOf(k, root) in Listed(RawOf(k, s)) {
      ListedIsChildOrValue(k, s, HashOf(k, root));
      if c :| c in DirectChildren(s) && HashOf(k, c) == HashOf(k, root) {
        RootIsNoChild(k, root, s, c);
      }
    }
  }

  /** The root is found exactly when no value gets in the way; otherwise nothing is left over. */
  lemma RootIsFoundIff(k: Format, nodes: map<Hash, Bytes>, root: Trie)
    requires IsFormat(k, root) && IsInjectiveOn(k, Blobs(k, root)) && IsPartialState(k, nodes, root)
    ensures Unlisted(k, nodes) == if ValueHidesRoot(k, nodes, root) then {} else {HashOf(k, root)}
  {
    var r := HashOf(k, root);
    OnlyRootIsUnlisted(k, nodes, root);
    if exists s, v :: s in Subs(root) && IsPresent(k, nodes, s) && v in OwnValue(s) && k.hash(v) == r {
      var s, v :| s in Subs(root) && IsPresent(k, nodes, s) && v in OwnValue(s) && k.hash(v) == r;
      StoredNode(k, nodes, root, s);
      ValueIsListed(k, s, v);
    }
    if !ValueHidesRoot(k, nodes, root) {
      forall h | h in nodes
        ensures r !in PossibleChildren(k, nodes[h])
      {
        if IsNodeBlob(k, root, nodes[h]) {
          var s :| s in Subs(root) && k.blobOf(s) == nodes[h];
          NodeDoesNotListRoot(k, nodes, root, s);
        }
      }
      assert r in Unlisted(k, nodes);
    }
  }

  // The tree view

  const MISSING: Entity := Text("(missing)")

  function ShowValue(k: Format, nodes: map<Hash, Bytes>, value: Bytes): Entity {
    if k.hash(value) in nodes then Text(Hex(value)) else MISSING
  }

  /** The trie unfolded, with "(missing)" where a referenced node or value is not in the map. */
  function Show(k: Format, nodes: map<Hash, Bytes>, t: Trie): Entity {
    if HashOf(k, t) !in nodes then MISSING
    else match t
      case LeafOf(path, value) =>
        Record([Entry("extension", Text(PathText(path))), Entry("value", ShowValue(k, nodes, value))])
      case BranchOf(value, slots) =>
        Record((if value.Some? then [Entry("value", ShowValue(k, nodes, value.value))] else [])
               + seq(|slots|, i requires 0 <= i < |slots| =>
                   Entry(HexNumber(slots[i].index), Show(k, nodes, slots[i].child))))
      case ExtensionOf(path, child) =>
        Record([Entry("extension", Text(PathText(path))), Entry("child", Show(k, nodes, child))])
  }

  /** No digit of a branch looks like another name of an entry. */
  lemma DigitIsNoName(n: nat)
    ensures HexNumber(n) != "value" && HexNumber(n) != "extension" && HexNumber(n) != "child"
  {
    HexNumberIsHex(n);
    assert "value"[0] !in HEX_DIGITS && "extension"[1] !in HEX_DIGITS && "child"[1] !in HEX_DIGITS;
  }

  /** All nodes and values of the trie are in the map. */
  ghost predicate IsWhole(k: Format, nodes: map<Hash, Bytes>, t: Trie) {
    forall s :: s in Subs(t) ==> HashOf(k, s) in nodes && forall v :: v in OwnValue(s) ==> k.hash(v) in nodes
  }

  lemma WholeHere(k: Format, nodes: map<Hash, Bytes>, t: Trie)
    requires IsWhole(k, nodes, t)
    ensures HashOf(k, t) in nodes && forall v :: v in OwnValue(t) ==> k.hash(v) in nodes
  {
    SelfIsSub(t);
  }

  lemma WholeBelow(k: Format, nodes: map<Hash, Bytes>, t: Trie, c: Trie)
    requires IsWhole(k, nodes, t) && c in DirectChildren(t)
    ensures IsWhole(k, nodes, c)
  {
    forall s | s in Subs(c)
      ensures s in Subs(t)
    {
    }
  }

  /** The first entry of a branch is its value or a digit. */
  function BranchHead(value: Option<Bytes>): seq<Entry> {
    if value.Some? then [Entry("value", Text(Hex(value.value)))] else []
  }

  function SlotEntry(k: Format, nodes: map<Hash, Bytes>, slot: Slot): Entry {
    Entry(HexNumber(slot.index), Show(k, nodes, slot.child))
  }

  lemma WholeShow(k: Format, nodes: map<Hash, Bytes>, t: Trie)
    requires IsWhole(k, nodes, t)
    ensures Show(k, nodes, t).Record?
    ensures var entries := Show(k, nodes, t).entries;
            match t
            case LeafOf(path, value) =>
              entries == [Entry("extension", Text(PathText(path))), Entry("value", Text(Hex(value)))]
            case BranchOf(value, slots) =>
              && |entries| == |BranchHead(value)| + |slots| && BranchHead(value) <= entries
              && forall i :: 0 <= i < |slots| ==> entries[|BranchHead(value)| + i] == SlotEntry(k, nodes, slots[i])
            case ExtensionOf(path, child) =>
              entries == [Entry("extension", Text(PathText(path))), Entry("child", Show(k, nodes, child))]
  {
    hide IsWhole, Subs;
    WholeHere(k, nodes, t);
    if t.LeafOf? {
      assert t.value in OwnValue(t);
    } else if t.BranchOf? {
      assert t.ownValue.Some? ==> t.ownValue.value in OwnValue(t);
      assert BranchHead(t.ownValue) == if t.ownValue.Some?
          then [Entry("value", ShowValue(k, nodes, t.ownValue.value))] else [];
    }
  }

  /** The first entry of a branch is called "value" exactly when the branch has one. */
  lemma FirstName(k: Format, nodes: map<Hash, Bytes>, t: Trie)
    requires IsWhole(k, nodes, t) && t.BranchOf?
    ensures Show(k, nodes, t).Record?
    ensures var entries := Show(k, nodes, t).entries;
            if entries == [] then t.ownValue.None?
            else entries[0].name != "extension" && (entries[0].name == "value" <==> t.ownValue.Some?)
  {
    hide Show, IsWhole;
    WholeShow(k, nodes, t);
    var entries := Show(k, nodes, t).entries;
    assert |"value"| == 5 && |"extension"| == 9;
    if t.ownValue.Some? {
      assert BranchHead(t.ownValue)[0] == entries[0];
    } else if entries != [] {
      assert entries[|BranchHead(t.ownValue)| + 0] == SlotEntry(k, nodes, t.slots[0]);
      DigitIsNoName(t.slots[0].index);
    }
  }

  /** The names of the entries tell the kind of the node. */
  lemma ShowTellsKind(k: Format, nodes: map<Hash, Bytes>, s: Trie, t: Trie)
    requires IsWhole(k, nodes, s) && IsWhole(k, nodes, t) && Show(k, nodes, s) == Show(k, nodes, t)
    ensures s.LeafOf? == t.LeafOf? && s.BranchOf? == t.BranchOf?
    ensures s.BranchOf? ==> s.ownValue.Some? == t.ownValue.Some?
  {
    hide Show, IsWhole, SlotEntry, BranchHead;
    WholeShow(k, nodes, s);
    WholeShow(k, nodes, t);
    assert |"value"| == 5 && |"child"| == 5 && "value"[0] != "child"[0];
    if s.BranchOf? {
      FirstName(k, nodes, s);
    }
    if t.BranchOf? {
      FirstName(k, nodes, t);
    }
  }

  ghost predicate SameSlots(k: Format, nodes: map<Hash, Bytes>, s: seq<Slot>, t: seq<Slot>) {
    |s| == |t| && forall i :: 0 <= i < |s| ==> SlotEntry(k, nodes, s[i]) == SlotEntry(k, nodes, t[i])
  }

  lemma BranchHeadBinds(v: Option<Bytes>, w: Option<Bytes>)
    requires BranchHead(v) == BranchHead(w)
    ensures v == w
  {
    if v.Some? && w.Some? {
      assert BranchHead(v)[0] == BranchHead(w)[0];
      HexIsInjective(v.value, w.value);
    } else {
      assert |BranchHead(v)| == |BranchHead(w)|;
    }
  }

  /** Branches that look the same have the same value and slots that look the same. */
  lemma EqualBranches(k: Format, nodes: map<Hash, Bytes>, s: Trie, t: Trie)
    requires IsWhole(k, nodes, s) && IsWhole(k, nodes, t) && s.BranchOf? && t.BranchOf?
    requires Show(k, nodes, s) == Show(k, nodes, t)
    ensures s.ownValue == t.ownValue && SameSlots(k, nodes, s.slots, t.slots)
  {
    hide Show, IsWhole, SlotEntry;
    WholeShow(k, nodes, s);
    WholeShow(k, nodes, t);
    ShowTellsKind(k, nodes, s, t);
    var entries, n := Show(k, nodes, s).entries, |BranchHead(s.ownValue)|;
    assert entries[..n] == BranchHead(s.ownValue) && entries[..n] == BranchHead(t.ownValue);
    BranchHeadBinds(s.ownValue, t.ownValue);
    forall i | 0 <= i < |s.slots|
      ensures SlotEntry(k, nodes, s.slots[i]) == SlotEntry(k, nodes, t.slots[i])
    {
      assert entries[n + i] == SlotEntry(k, nodes, s.slots[i]);
    }
  }

  /** The tree view loses nothing: two whole tries look the same exactly when they are the same. */
  lemma {:induction false} ShowDeterminesTrie(k: Format, nodes: map<Hash, Bytes>, s: Trie, t: Trie)
    requires IsWhole(k, nodes, s) && IsWhole(k, nodes, t)
    ensures Show(k, nodes, s) == Show(k, nodes, t) <==> s == t
    decreases s
  {
    if Show(k, nodes, s) == Show(k, nodes, t) {
      hide Show, IsWhole, PathText;
      WholeShow(k, nodes, s);
      WholeShow(k, nodes, t);
      ShowTellsKind(k, nodes, s, t);
      match s
      case LeafOf(path, value) =>
        PathTextIsInjective(path, t.path);
        HexIsInjective(value, t.value);
      case BranchOf(_, slots) =>
        EqualBranches(k, nodes, s, t);
        forall i | 0 <= i < |slots|
          ensures slots[i] == t.slots[i]
        {
          assert SlotEntry(k, nodes, slots[i]) == SlotEntry(k, nodes, t.slots[i]);
          HexNumberIsInjective(slots[i].index, t.slots[i].index);
          WholeBelow(k, nodes, s, slots[i].child);
          WholeBelow(k, nodes, t, t.slots[i].child);
          ShowDeterminesTrie(k, nodes, slots[i].child, t.slots[i].child);
        }
        assert slots == t.slots;
      case ExtensionOf(path, child) =>
        PathTextIsInjective(path, t.path);
        WholeBelow(k, nodes, s, child);
        WholeBelow(k, nodes, t, t.child);
        ShowDeterminesTrie(k, nodes, child, t.child);
    }
  }

  // Reading the page

  /** A key of the trie, digit by digit, and its value. */
  datatype Item = Item(key: string, value: string)

  /** What a trie stores, in the order of its slots. */
  function ContentsOf(t: Trie, key: string): seq<Item> {
    match t
    case LeafOf(path, value) => [Item(key + PathText(path), Hex(value))]
    case BranchOf(value, slots) =>
      (if value.Some? then [Item(key, Hex(value.value))] else [])
      + Flat(seq(|slots|, i requires 0 <= i < |slots| =>
          ContentsOf(slots[i].child, key + HexNumber(slots[i].index))))
    case ExtensionOf(path, child) => ContentsOf(child, key + PathText(path))
  }

  function SlotContents(slots: seq<Slot>, key: string): (r: seq<seq<Item>>)
    ensures |r| == |slots|
    ensures forall i :: 0 <= i < |slots| ==> r[i] == ContentsOf(slots[i].child, key + HexNumber(slots[i].index))
  {
    seq(|slots|, i requires 0 <= i < |slots| => ContentsOf(slots[i].child, key + HexNumber(slots[i].index)))
  }

  /** What a reader of the page collects: digits on the way down, values where it ends. */
  function ReadPage(page: Entity, key: string): seq<Item> {
    match page
    case Text(_) => []
    case Record(entries) =>
      if |entries| == 2 && entries[0].name == "extension" && entries[0].value.Text? then
        ReadEntry(entries[1], key + entries[0].value.text)
      else
        Flat(seq(|entries|, i requires 0 <= i < |entries| => ReadEntry(entries[i], key)))
  }

  function ReadEntry(entry: Entry, key: string): seq<Item> {
    if entry.name == "value" && entry.value.Text? then [Item(key, entry.value.text)]
    else ReadPage(entry.value, if entry.name == "child" then key else key + entry.name)
  }

  lemma BranchIsRead(k: Format, nodes: map<Hash, Bytes>, t: Trie, key: string, parts: seq<seq<Item>>)
    requires IsWhole(k, nodes, t) && t.BranchOf? && |parts| == |t.slots|
    requires forall i :: 0 <= i < |parts| ==> ReadEntry(SlotEntry(k, nodes, t.slots[i]), key) == parts[i]
    ensures ReadPage(Show(k, nodes, t), key) ==
            (if t.ownValue.Some? then [Item(key, Hex(t.ownValue.value))] else []) + Flat(parts)
  {
    hide Show, IsWhole, SlotEntry, Flat;
    WholeShow(k, nodes, t);
    FirstName(k, nodes, t);
    var entries := Show(k, nodes, t).entries;
    var read := seq(|entries|, i requires 0 <= i < |entries| => ReadEntry(entries[i], key));
    assert ReadPage(Show(k, nodes, t), key) == Flat(read);
    var n := |BranchHead(t.ownValue)|;
    forall i | 0 <= i < |parts|
      ensures read[n + i] == parts[i]
    {
      assert entries[n + i] == SlotEntry(k, nodes, t.slots[i]);
    }
    if t.ownValue.Some? {
      var own := [Item(key, Hex(t.ownValue.value))];
      assert BranchHead(t.ownValue)[0] == entries[0];
      assert read == [own] + parts;
      FlatAppend([own], parts);
      FlatOne(own);
    } else {
      assert read == parts;
      assert [] + Flat(parts) == Flat(parts);
    }
  }

  /** Reading the page of a whole trie gives back every key of the trie with its value, in order. */
  lemma {:induction false} PageShowsContents(k: Format, nodes: map<Hash, Bytes>, t: Trie, key: string)
    requires IsWhole(k, nodes, t)
    ensures ReadPage(Show(k, nodes, t), key) == ContentsOf(t, key)
    decreases t
  {
    hide Show, IsWhole;
    WholeShow(k, nodes, t);
    match t
    case LeafOf(path, value) =>
    case BranchOf(_, slots) =>
      forall i | 0 <= i < |slots|
        ensures ReadEntry(SlotEntry(k, nodes, slots[i]), key) == SlotContents(slots, key)[i]
      {
        WholeBelow(k, nodes, t, slots[i].child);
        PageShowsContents(k, nodes, slots[i].child, key + HexNumber(slots[i].index));
        DigitIsNoName(slots[i].index);
      }
      BranchIsRead(k, nodes, t, key, SlotContents(slots, key));
      assert SlotContents(slots, key) == seq(|slots|, i requires 0 <= i < |slots| =>
          ContentsOf(slots[i].child, key + HexNumber(slots[i].index)));
    case ExtensionOf(path, child) =>
      WholeBelow(k, nodes, t, child);
      PageShowsContents(k, nodes, child, key + PathText(path));
  }

  /** The map agrees with the trie on everything that it holds of it. */
  ghost predicate Agrees(k: Format, nodes: map<Hash, Bytes>, t: Trie) {
    forall s :: s in Subs(t) ==>
      && (HashOf(k, s) in nodes ==> nodes[HashOf(k, s)] == k.blobOf(s))
      && forall v :: v in OwnValue(s) && k.hash(v) in nodes ==> nodes[k.hash(v)] == v
  }

  lemma PartialStateAgrees(k: Format, nodes: map<Hash, Bytes>, root: Trie)
    requires IsInjectiveOn(k, Blobs(k, root)) && IsPartialState(k, nodes, root)
    ensures Agrees(k, nodes, root)
  {
    forall s | s in Subs(root)
      ensures HashOf(k, s) in nodes ==> nodes[HashOf(k, s)] == k.blobOf(s)
      ensures forall v :: v in OwnValue(s) && k.hash(v) in nodes ==> nodes[k.hash(v)] == v
    {
      NodeBlobIn(k, root, s);
    }
  }

  lemma AgreesBelow(k: Format, nodes: map<Hash, Bytes>, t: Trie, c: Trie)
    requires Agrees(k, nodes, t) && c in DirectChildren(t)
    ensures Agrees(k, nodes, c)
  {
    forall s | s in Subs(c)
      ensures s in Subs(t)
    {
    }
  }

  lemma FormatBelow(k: Format, t: Trie, c: Trie)
    requires IsFormat(k, t) && c in DirectChildren(t)
    ensures IsFormat(k, c)
  {
    forall s | s in Subs(c)
      ensures s in Subs(t)
    {
    }
  }

  // Following hashes in any bag of blobs

  /** The nodes that a node refers to; its value is not followed. */
  function References(node: RawNode): seq<Child> {
    match node
    case Leaf(_, _) => []
    case BranchNoValue(children) => children
    case BranchWithValue(_, children) => children
    case Extension(_, child) => [Child(0, child)]
  }

  /** A leaf and an extension have a path that `from_encoded` can read; the empty byte string is none. */
  predicate HasPath(node: RawNode) {
    node.Leaf? || node.Extension? ==> FromEncoded(node.extension).Some?
  }

  /** The node that `serialize_node` can display; None when it panics on the blob. */
  function Rendered(k: Format, blob: Bytes): Option<RawNode> {
    var node :- k.decode(blob);
    if HasPath(node) then Some(node) else None
  }

  /** Why it panics: the blob is no node, or a leaf or an extension with an empty byte string for its path. */
  lemma RenderedFailsIff(k: Format, blob: Bytes)
    ensures Rendered(k, blob).None? <==>
            var node := k.decode(blob);
            node.None? || ((node.value.Leaf? || node.value.Extension?) && node.value.extension == [])
  {
  }

  /** Following child references from h ends after at most this many links, as it must unless hashes form a cycle. */
  ghost predicate Ends(k: Format, nodes: map<Hash, Bytes>, h: Hash, links: nat)
    decreases links
  {
    h in nodes && Rendered(k, nodes[h]).Some? ==>
      var next := References(Rendered(k, nodes[h]).value);
      next == [] || (links > 0 && forall i :: 0 <= i < |next| ==> Ends(k, nodes, next[i].hash, links - 1))
  }

  ghost predicate AllEnd(k: Format, nodes: map<Hash, Bytes>, children: seq<Child>, links: nat) {
    children == [] || (links > 0 && forall i :: 0 <= i < |children| ==> Ends(k, nodes, children[i].hash, links - 1))
  }

  lemma EndsLevel(k: Format, nodes: map<Hash, Bytes>, h: Hash, links: nat)
    requires h in nodes && Rendered(k, nodes[h]).Some?
    ensures Ends(k, nodes, h, links) <==> AllEnd(k, nodes, References(Rendered(k, nodes[h]).value), links)
  {
  }

  function StoredValue(k: Format, nodes: map<Hash, Bytes>, h: Hash): Entity {
    if h in nodes then Text(Hex(nodes[h])) else MISSING
  }

  /** What `serialize_node` makes of a hash, in any bag; None when it panics. */
  ghost function Unfold(k: Format, nodes: map<Hash, Bytes>, h: Hash, links: nat): Option<Entity>
    requires Ends(k, nodes, h, links)
    decreases links, 1, 0
  {
    if h !in nodes then Some(MISSING)
    else
      var node :- Rendered(k, nodes[h]);
      match node
      case Leaf(extension, value) =>
        var path := FromEncoded(extension).value.path;
        Some(Record([Entry("extension", Text(PathText(path))), Entry("value", StoredValue(k, nodes, value))]))
      case BranchNoValue(children) =>
        var entries :- UnfoldAll(k, nodes, children, links);
        Some(Record(entries))
      case BranchWithValue(value, children) =>
        var entries :- UnfoldAll(k, nodes, children, links);
        Some(Record([Entry("value", StoredValue(k, nodes, value))] + entries))
      case Extension(extension, child) =>
        assert References(node)[0].hash == child;
        var inner :- Unfold(k, nodes, child, links - 1);
        var path := FromEncoded(extension).value.path;
        Some(Record([Entry("extension", Text(PathText(path))), Entry("child", inner)]))
  }

  ghost function UnfoldAll(k: Format, nodes: map<Hash, Bytes>, children: seq<Child>,
                           links: nat): (r: Option<seq<Entry>>)
    requires AllEnd(k, nodes, children, links)
    ensures r.Some? ==> |r.value| == |children|
    decreases links, 0, |children|
  {
    if children == [] then Some([])
    else
      var n := |children| - 1;
      var init :- UnfoldAll(k, nodes, children[..n], links);
      var last :- Unfold(k, nodes, children[n].hash, links - 1);
      Some(init + [Entry(HexNumber(children[n].index), last)])
  }

  lemma AllEndPrefix(k: Format, nodes: map<Hash, Bytes>, children: seq<Child>, links: nat, n: nat)
    requires AllEnd(k, nodes, children, links) && n <= |children|
    ensures AllEnd(k, nodes, children[..n], links)
  {
    hide Ends;
  }

  lemma UnfoldStep(k: Format, nodes: map<Hash, Bytes>, children: seq<Child>, links: nat, n: nat)
    requires AllEnd(k, nodes, children, links) && n < |children|
    ensures AllEnd(k, nodes, children[..n], links) && AllEnd(k, nodes, children[..n + 1], links)
    ensures links > 0 && Ends(k, nodes, children[n].hash, links - 1)
    ensures var init, last := UnfoldAll(k, nodes, children[..n], links), Unfold(k, nodes, children[n].hash, links - 1);
            UnfoldAll(k, nodes, children[..n + 1], links) ==
            if init.Some? && last.Some? then Some(init.value + [Entry(HexNumber(children[n].index), last.value)])
                else None
  {
    hide Unfold, Ends;
    AllEndPrefix(k, nodes, children, links, n);
    AllEndPrefix(k, nodes, children, links, n + 1);
    assert children[..n + 1][..n] == children[..n];
  }

  lemma {:induction false} UnfoldAllFails(k: Format, nodes: map<Hash, Bytes>, children: seq<Child>, links: nat, n: nat)
    requires AllEnd(k, nodes, children, links) && n <= |children|
    requires AllEnd(k, nodes, children[..n], links) && UnfoldAll(k, nodes, children[..n], links).None?
    ensures UnfoldAll(k, nodes, children, links).None?
    decreases |children| - n
  {
    hide Unfold, Ends, UnfoldAll, AllEnd;
    if n == |children| {
      assert children[..n] == children;
    } else {
      UnfoldStep(k, nodes, children, links, n);
      UnfoldAllFails(k, nodes, children, links, n + 1);
    }
  }

  method SerializeValue(k: Format, nodes: map<Hash, Bytes>, h: Hash) returns (r: Entity)
    ensures r == StoredValue(k, nodes, h)
  {
    return if h in nodes then Text(Hex(nodes[h])) else MISSING;
  }

  /**
   `serialize_node`: follows hashes; its `unwrap` panics on a blob that is no node, `from_encoded`
   on an empty path.
   */
  method SerializeNode(k: Format, nodes: map<Hash, Bytes>, h: Hash, ghost links: nat) returns (r: Option<Entity>)
    requires Ends(k, nodes, h, links)
    ensures r == Unfold(k, nodes, h, links)
    decreases links, 1
  {
    if h !in nodes {
      return Some(MISSING);
    }
    var node := k.decode(nodes[h]);
    if node.None? {
      return None;
    }
    match node.value
    case Leaf(extension, valueHash) =>
      var path := FromEncoded(extension);
      if path.None? {
        return None;
      }
      var value := SerializeValue(k, nodes, valueHash);
      return Some(Record([Entry("extension", Text(PathText(path.value.path))), Entry("value", value)]));
    case BranchNoValue(children) =>
      var entries := SerializeChildren(k, nodes, children, links);
      return if entries.Some? then Some(Record(entries.value)) else None;
    case BranchWithValue(valueHash, children) =>
      var value := SerializeValue(k, nodes, valueHash);
      var entries := SerializeChildren(k, nodes, children, links);
      return if entries.Some? then Some(Record([Entry("value", value)] + entries.value)) else None;
    case Extension(extension, childHash) =>
      var path := FromEncoded(extension);
      if path.None? {
        return None;
      }
      assert References(node.value)[0].hash == childHash;
      var child := SerializeNode(k, nodes, childHash, links - 1);
      if child.None? {
        return None;
      }
      return Some(Record([Entry("extension", Text(PathText(path.value.path))), Entry("child", child.value)]));
  }

  method SerializeChildren(k: Format, nodes: map<Hash, Bytes>, children: seq<Child>, ghost links: nat)
    returns (r: Option<seq<Entry>>)
    requires AllEnd(k, nodes, children, links)
    ensures r == UnfoldAll(k, nodes, children, links)
    decreases links, 0
  {
    var entries: seq<Entry> := [];
    AllEndPrefix(k, nodes, children, links, 0);
    hide Unfold, Ends, AllEnd;
    for i := 0 to |children|
      invariant AllEnd(k, nodes, children[..i], links)
      invariant UnfoldAll(k, nodes, children[..i], links) == Some(entries)
    {
      UnfoldStep(k, nodes, children, links, i);
      var child := SerializeNode(k, nodes, children[i].hash, links - 1);
      if child.None? {
        UnfoldAllFails(k, nodes, children, links, i + 1);
        return None;
      }
      entries := entries + [Entry(HexNumber(children[i].index), child.value)];
    }
    assert children[..|children|] == children;
    return Some(entries);
  }

  // When `serialize_node` panics

  ghost predicate RefersTo(k: Format, nodes: map<Hash, Bytes>, g: Hash, h: Hash) {
    && g in nodes && Rendered(k, nodes[g]).Some?
    && var next := References(Rendered(k, nodes[g]).value); exists i :: 0 <= i < |next| && next[i].hash == h
  }

  /** A chain of child references from h to a stored blob that cannot be displayed. */
  ghost predicate LeadsToPanic(k: Format, nodes: map<Hash, Bytes>, h: Hash, path: seq<Hash>) {
    && path != [] && path[0] == h
    && (forall i: nat :: i + 1 < |path| ==> RefersTo(k, nodes, path[i], path[i + 1]))
    && path[|path| - 1] in nodes && Rendered(k, nodes[path[|path| - 1]]).None?
  }

  lemma {:induction false} UnfoldAllSucceeds(k: Format, nodes: map<Hash, Bytes>, children: seq<Child>, links: nat)
    requires AllEnd(k, nodes, children, links)
    ensures UnfoldAll(k, nodes, children, links).Some? <==>
            forall i :: 0 <= i < |children| ==> Unfold(k, nodes, children[i].hash, links - 1).Some?
    decreases |children|
  {
    hide Unfold, Ends;
    AllEndPrefix(k, nodes, children, links, |children|);
    if children != [] {
      var n := |children| - 1;
      UnfoldStep(k, nodes, children, links, n);
      assert children[..n + 1] == children;
      UnfoldAllSucceeds(k, nodes, children[..n], links);
      assert forall i :: 0 <= i < n ==> children[..n][i] == children[i];
      hide UnfoldAll;
    }
  }

  /** One level: unfolding a node fails exactly when unfolding one of its children does. */
  lemma UnfoldLevel(k: Format, nodes: map<Hash, Bytes>, h: Hash, links: nat)
    requires Ends(k, nodes, h, links) && h in nodes && Rendered(k, nodes[h]).Some?
    ensures var next := References(Rendered(k, nodes[h]).value);
            && AllEnd(k, nodes, next, links)
            && (Unfold(k, nodes, h, links).Some? <==> forall i :: 0 <= i < |next| ==>
                Unfold(k, nodes, next[i].hash, links - 1).Some?)
  {
    hide UnfoldAll;
    EndsLevel(k, nodes, h, links);
    match Rendered(k, nodes[h]).value
    case Leaf(_, _) =>
    case BranchNoValue(children) => UnfoldAllSucceeds(k, nodes, children, links);
    case BranchWithValue(_, children) => UnfoldAllSucceeds(k, nodes, children, links);
    case Extension(_, child) =>
      var next := References(Rendered(k, nodes[h]).value);
      assert next[0].hash == child && |next| == 1;
  }

  lemma {:induction false} PanicHasPath(k: Format, nodes: map<Hash, Bytes>, h: Hash, links: nat)
    returns (path: seq<Hash>)
    requires Ends(k, nodes, h, links) && Unfold(k, nodes, h, links).None?
    ensures LeadsToPanic(k, nodes, h, path)
    decreases links
  {
    if Rendered(k, nodes[h]).None? {
      path := [h];
    } else {
      var next := References(Rendered(k, nodes[h]).value);
      UnfoldLevel(k, nodes, h, links);
      hide Unfold, Ends, References;
      var i :| 0 <= i < |next| && Unfold(k, nodes, next[i].hash, links - 1).None?;
      var rest := PanicHasPath(k, nodes, next[i].hash, links - 1);
      path := [h] + rest;
      forall j: nat | j + 1 < |path|
        ensures RefersTo(k, nodes, path[j], path[j + 1])
      {
        assert if j > 0 then RefersTo(k, nodes, rest[j - 1], rest[j]) else next[i].hash == path[1];
      }
    }
  }

  lemma {:induction false} PathPanics(k: Format, nodes: map<Hash, Bytes>, h: Hash, links: nat, path: seq<Hash>)
    requires Ends(k, nodes, h, links) && LeadsToPanic(k, nodes, h, path)
    ensures Unfold(k, nodes, h, links).None?
    decreases |path|
  {
    if |path| > 1 {
      assert RefersTo(k, nodes, path[0], path[1]);
      UnfoldLevel(k, nodes, h, links);
      var next := References(Rendered(k, nodes[h]).value);
      hide Unfold, Ends, References;
      var i :| 0 <= i < |next| && next[i].hash == path[1];
      forall j: nat | j + 1 < |path[1..]|
        ensures RefersTo(k, nodes, path[1..][j], path[1..][j + 1])
      {
        assert RefersTo(k, nodes, path[j + 1], path[j + 2]);
      }
      PathPanics(k, nodes, path[1], links - 1, path[1..]);
    }
  }

  /**
   In any bag without a cycle of hashes: `serialize_node` panics exactly when child references lead
   to a stored blob that is no node, or a leaf or an extension with an empty path.
   */
  lemma SerializeNodePanicsIff(k: Format, nodes: map<Hash, Bytes>, h: Hash, links: nat)
    requires Ends(k, nodes, h, links)
    ensures Unfold(k, nodes, h, links).None? <==> exists path :: LeadsToPanic(k, nodes, h, path)
  {
    if Unfold(k, nodes, h, links).None? {
      var path := PanicHasPath(k, nodes, h, links);
    }
    if path :| LeadsToPanic(k, nodes, h, path) {
      PathPanics(k, nodes, h, links, path);
    }
  }

  // Unfolding a trie

  function Height(t: Trie): nat {
    match t
    case LeafOf(_, _) => 0
    case BranchOf(_, slots) => Max(seq(|slots|, i requires 0 <= i < |slots| => Height(slots[i].child))) + 1
    case ExtensionOf(_, child) => Height(child) + 1
  }

  lemma ChildIsLower(t: Trie, c: Trie)
    requires c in DirectChildren(t)
    ensures Height(c) < Height(t)
  {
    if t.BranchOf? {
      var i :| 0 <= i < |t.slots| && t.slots[i].child == c;
      var heights := seq(|t.slots|, j requires 0 <= j < |t.slots| => Height(t.slots[j].child));
      assert heights[i] == Height(c);
    }
  }

  lemma StoredHere(k: Format, nodes: map<Hash, Bytes>, t: Trie)
    requires IsFormat(k, t) && Agrees(k, nodes, t) && HashOf(k, t) in nodes
    ensures Rendered(k, nodes[HashOf(k, t)]) == Some(RawOf(k, t))
    ensures !t.BranchOf? ==> FromEncoded(RawOf(k, t).extension) == Some(Decoded(t.path, t.LeafOf?))
    ensures t.LeafOf? ==> StoredValue(k, nodes, k.hash(t.value)) == ShowValue(k, nodes, t.value)
    ensures t.BranchOf? && t.ownValue.Some? ==>
      StoredValue(k, nodes, k.hash(t.ownValue.value)) == ShowValue(k, nodes, t.ownValue.value)
  {
    SelfIsSub(t);
    if !t.BranchOf? {
      DecodeUndoesEncode(t.path, t.LeafOf?);
    }
    if t.LeafOf? {
      assert t.value in OwnValue(t);
    } else if t.BranchOf? && t.ownValue.Some? {
      assert t.ownValue.value in OwnValue(t);
    }
  }

  lemma ChildAgrees(k: Format, nodes: map<Hash, Bytes>, t: Trie, c: Trie)
    requires IsFormat(k, t) && Agrees(k, nodes, t) && c in DirectChildren(t)
    ensures IsFormat(k, c) && Agrees(k, nodes, c) && Height(c) < Height(t)
  {
    hide IsFormat, Agrees, Height;
    AgreesBelow(k, nodes, t, c);
    FormatBelow(k, t, c);
    ChildIsLower(t, c);
  }

  lemma OneMoreChild(k: Format, nodes: map<Hash, Bytes>, slots: seq<Slot>, links: nat, n: nat)
    requires 0 < n <= |slots| && links > 0 && AllEnd(k, nodes, ChildrenOf(k, slots[..n - 1]), links)
    requires Ends(k, nodes, HashOf(k, slots[n - 1].child), links - 1)
    ensures var all := ChildrenOf(k, slots[..n]);
            && AllEnd(k, nodes, all, links) && |all| == n && all[..n] == all
            && all[..n - 1] == ChildrenOf(k, slots[..n - 1])
            && all[n - 1] == Child(slots[n - 1].index, HashOf(k, slots[n - 1].child))
  {
    hide Ends;
    var all, init := ChildrenOf(k, slots[..n]), ChildrenOf(k, slots[..n - 1]);
    assert all == init + [Child(slots[n - 1].index, HashOf(k, slots[n - 1].child))];
  }

  lemma LeafUnfolds(k: Format, nodes: map<Hash, Bytes>, t: Trie, links: nat)
    requires IsFormat(k, t) && Agrees(k, nodes, t) && t.LeafOf? && HashOf(k, t) in nodes
    ensures Ends(k, nodes, HashOf(k, t), links)
    ensures Unfold(k, nodes, HashOf(k, t), links) == Some(Show(k, nodes, t))
  {
    hide IsFormat, Agrees, Subs, Encoded, FromEncoded, PathText, Rendered;
    StoredHere(k, nodes, t);
    assert References(RawOf(k, t)) == [];
  }

  lemma ExtensionUnfolds(k: Format, nodes: map<Hash, Bytes>, t: Trie, links: nat)
    requires IsFormat(k, t) && Agrees(k, nodes, t) && t.ExtensionOf? && links > 0 && HashOf(k, t) in nodes
    requires Ends(k, nodes, HashOf(k, t.child), links - 1)
    requires Unfold(k, nodes, HashOf(k, t.child), links - 1) == Some(Show(k, nodes, t.child))
    ensures Ends(k, nodes, HashOf(k, t), links)
    ensures Unfold(k, nodes, HashOf(k, t), links) == Some(Show(k, nodes, t))
  {
    hide IsFormat, Agrees, Subs, Encoded, FromEncoded, PathText, Rendered;
    StoredHere(k, nodes, t);
    assert References(RawOf(k, t)) == [Child(0, HashOf(k, t.child))];
  }

  /** Hashes taken from a trie unfold to that trie. */
  lemma {:induction false} UnfoldShows(k: Format, nodes: map<Hash, Bytes>, t: Trie, links: nat)
    requires IsFormat(k, t) && Agrees(k, nodes, t) && links >= Height(t)
    ensures Ends(k, nodes, HashOf(k, t), links)
    ensures Unfold(k, nodes, HashOf(k, t), links) == Some(Show(k, nodes, t))
    decreases t, 1
  {
    hide IsFormat, Agrees, Subs, Height, Encoded, FromEncoded, PathText;
    if HashOf(k, t) in nodes {
      StoredHere(k, nodes, t);
      match t
      case LeafOf(_, _) => LeafUnfolds(k, nodes, t, links);
      case BranchOf(_, _) => BranchUnfolds(k, nodes, t, links);
      case ExtensionOf(_, child) =>
        ChildAgrees(k, nodes, t, child);
        UnfoldShows(k, nodes, child, links - 1);
        ExtensionUnfolds(k, nodes, t, links);
    }
  }

  function SlotEntries(k: Format, nodes: map<Hash, Bytes>, slots: seq<Slot>): (r: seq<Entry>)
    ensures |r| == |slots| && forall i :: 0 <= i < |slots| ==> r[i] == SlotEntry(k, nodes, slots[i])
  {
    seq(|slots|, i requires 0 <= i < |slots| => SlotEntry(k, nodes, slots[i]))
  }

  lemma {:induction false} BranchUnfolds(k: Format, nodes: map<Hash, Bytes>, t: Trie, links: nat)
    requires IsFormat(k, t) && Agrees(k, nodes, t) && t.BranchOf? && links >= Height(t) && HashOf(k, t) in nodes
    ensures Ends(k, nodes, HashOf(k, t), links)
    ensures Unfold(k, nodes, HashOf(k, t), links) == Some(Show(k, nodes, t))
    decreases t, 0
  {
    hide IsFormat, Agrees, Subs, Height, UnfoldAll;
    StoredHere(k, nodes, t);
    var slots := t.slots;
    SlotsShow(k, nodes, t, links, |slots|);
    assert slots[..|slots|] == slots;
    EndsLevel(k, nodes, HashOf(k, t), links);
    var entries := SlotEntries(k, nodes, slots);
    assert entries == seq(|slots|,
        i requires 0 <= i < |slots| => Entry(HexNumber(slots[i].index), Show(k, nodes, slots[i].child)));
    assert [] + entries == entries;
  }

  lemma OneMoreEntry(k: Format, nodes: map<Hash, Bytes>, slots: seq<Slot>, n: nat)
    requires 0 < n <= |slots|
    ensures SlotEntries(k, nodes, slots[..n]) ==
            SlotEntries(k, nodes, slots[..n - 1]) + [SlotEntry(k, nodes, slots[n - 1])]
  {
    hide SlotEntry;
  }

  lemma {:induction false} SlotsShow(k: Format, nodes: map<Hash, Bytes>, t: Trie, links: nat, n: nat)
    requires IsFormat(k, t) && Agrees(k, nodes, t) && t.BranchOf? && links >= Height(t) && n <= |t.slots|
    ensures AllEnd(k, nodes, ChildrenOf(k, t.slots[..n]), links)
    ensures UnfoldAll(k, nodes, ChildrenOf(k, t.slots[..n]), links) == Some(SlotEntries(k, nodes, t.slots[..n]))
    decreases t, 0, n
  {
    hide Unfold, Show, Agrees, IsFormat, Ends, Height, HexNumber;
    if n == 0 {
      assert ChildrenOf(k, t.slots[..0]) == [];
      assert SlotEntries(k, nodes, t.slots[..0]) == [];
    } else {
      var child := t.slots[n - 1].child;
      SlotsShow(k, nodes, t, links, n - 1);
      assert child in DirectChildren(t);
      ChildAgrees(k, nodes, t, child);
      UnfoldShows(k, nodes, child, links - 1);
      var all := ChildrenOf(k, t.slots[..n]);
      OneMoreChild(k, nodes, t.slots, links, n);
      hide UnfoldAll, AllEnd, ChildrenOf;
      UnfoldStep(k, nodes, all, links, n - 1);
      OneMoreEntry(k, nodes, t.slots, n);
    }
  }

  // The whole page

  /** One entry per stored blob, in some order. */
  ghost predicate ListsRaw(k: Format, nodes: map<Hash, Bytes>, entries: seq<Entry>) {
    && |entries| == |nodes|
    && forall h :: h in nodes ==> Entry(k.showHash(h), Text(Hex(nodes[h]))) in entries
  }

  /** What is displayed when there is no single root. */
  ghost predicate IsErrorPage(k: Format, nodes: map<Hash, Bytes>, page: Entity) {
    && page.Record? && |page.entries| == 2 && page.entries[0] == Entry("error", Text("No root found"))
    && page.entries[1].name == "raw_nodes" && page.entries[1].value.Record?
    && ListsRaw(k, nodes, page.entries[1].value.entries)
  }

  lemma OnlyMember(s: set<Hash>, h: Hash)
    requires s == {h}
    ensures |s| == 1 && forall g :: s == {g} ==> g == h
  {
    forall g | s == {g}
      ensures g == h
    {
      assert g in s;
    }
  }

  lemma NoSingleton(s: set<Hash>)
    requires |s| != 1
    ensures forall h :: s != {h}
  {
  }

  method RawNodes(k: Format, nodes: map<Hash, Bytes>) returns (entries: seq<Entry>)
    ensures ListsRaw(k, nodes, entries)
  {
    entries := [];
    var todo := nodes.Keys;
    while todo != {}
      invariant todo <= nodes.Keys && |entries| + |todo| == |nodes|
      invariant forall h :: h in nodes && h !in todo ==> Entry(k.showHash(h), Text(Hex(nodes[h]))) in entries
      decreases |todo|
    {
      var h :| h in todo;
      entries := entries + [Entry(k.showHash(h), Text(Hex(nodes[h])))];
      todo := todo - {h};
    }
  }

  /**
   `parse_and_serialize_partial_state` on any bag of blobs; None stands for the panic.  It
   panics exactly when there is a single unlisted hash and child references lead from it to a
   stored blob that is no node, or a leaf or an extension with an empty path.
   */
  method ParseAndSerialize(k: Format, nodes: map<Hash, Bytes>, ghost links: nat) returns (page: Option<Entity>)
    requires forall h :: Unlisted(k, nodes) == {h} ==> Ends(k, nodes, h, links)
    ensures page.None? <==> exists h, path :: Unlisted(k, nodes) == {h} && LeadsToPanic(k, nodes, h, path)
    ensures forall h :: Unlisted(k, nodes) == {h} && page.Some? ==>
              Unfold(k, nodes, h, links).Some?
                  && page.value == Record([Entry("root", Unfold(k, nodes, h, links).value)])
    ensures |Unlisted(k, nodes)| != 1 ==> page.Some? && IsErrorPage(k, nodes, page.value)
  {
    hide Unfold, Ends, Unlisted, LeadsToPanic;
    var found := FindRoot(k, nodes);
    if found.Some? {
      OnlyMember(Unlisted(k, nodes), found.value);
      SerializeNodePanicsIff(k, nodes, found.value, links);
      var tree := SerializeNode(k, nodes, found.value, links);
      return if tree.Some? then Some(Record([Entry("root", tree.value)])) else None;
    }
    var raw := RawNodes(k, nodes);
    NoSingleton(Unlisted(k, nodes));
    return Some(Record([Entry("error", Text("No root found")), Entry("raw_nodes", Record(raw))]));
  }

  /**
   On the map of a partial state the page shows the trie, or the error when a value hides the root;
   it never panics.
   */
  lemma PartialStateIsShown(k: Format, nodes: map<Hash, Bytes>, root: Trie)
    requires IsFormat(k, root) && IsInjectiveOn(k, Blobs(k, root)) && IsPartialState(k, nodes, root)
    ensures Unlisted(k, nodes) == if ValueHidesRoot(k, nodes, root) then {} else {HashOf(k, root)}
    ensures Ends(k, nodes, HashOf(k, root), Height(root))
    ensures Unfold(k, nodes, HashOf(k, root), Height(root)) == Some(Show(k, nodes, root))
  {
    RootIsFoundIff(k, nodes, root);
    PartialStateAgrees(k, nodes, root);
    UnfoldShows(k, nodes, root, Height(root));
  }

  /** A bag that panics though its only blob is a node: a leaf with an empty byte string for its path. */
  lemma EmptyPathPanics(k: Format, blob: Bytes, value: Hash, links: nat)
    requires k.decode(blob) == Some(Leaf([], value)) && value != k.hash(blob)
    ensures var h, nodes := k.hash(blob), map[k.hash(blob) := blob];
            Unlisted(k, nodes) == {h} && Ends(k, nodes, h, links) && Unfold(k, nodes, h, links).None?
  {
  }
}
