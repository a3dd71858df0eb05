/**
 The encoding of trie paths: a first byte with two flags, and the first nibble of a path of odd
 length, then two nibbles to a byte.
 */
module Nibbles {
  import opened Wrappers
  import opened ByteStrings
  import opened Printing

  type Nibble = x: int | 0 <= x < 16
  type Path = seq<Nibble>

  datatype Decoded = Decoded(path: Path, isLeaf: bool)

  function NibbleAt(data: Bytes, i: nat): Nibble
    requires i / 2 < |data|
  {
    if i % 2 == 1 then data[i / 2] % 16 else data[i / 2] / 16
  }

  /** Where the path begins, in nibbles: the flag for odd lengths is bit 4 of the first byte. */
  function Start(data: Bytes): nat
    requires data != []
  {
    if data[0] / 16 % 2 == 1 then 1 else 2
  }

  function PathFrom(data: Bytes, start: nat): (p: Path)
    requires start <= 2 * |data|
    ensures |p| == 2 * |data| - start && forall i :: 0 <= i < |p| ==> p[i] == NibbleAt(data, start + i)
  {
    seq<Nibble>(2 * |data| - start, i requires 0 <= i < 2 * |data| - start => NibbleAt(data, start + i))
  }

  /** `from_encoded`; None when it reads the first byte of nothing. */
  function FromEncoded(data: Bytes): Option<Decoded> {
    if data == [] then None else Some(Decoded(PathFrom(data, Start(data)), data[0] / 32 % 2 == 1))
  }

  function Joined(high: Nibble, low: Nibble): Byte {
    (high as int) * 16 + low as int
  }

  function FirstByte(path: Path, isLeaf: bool): Byte {
    (if |path| % 2 == 1 then Joined(1, path[0]) else 0) + if isLeaf then 32 else 0
  }

  function Packed(path: Path): (r: Bytes)
    requires |path| % 2 == 0
    ensures |r| == |path| / 2 && forall i :: 0 <= i < |r| ==> r[i] == Joined(path[2 * i], path[2 * i + 1])
  {
    seq(|path| / 2, i requires 0 <= i < |path| / 2 => Joined(path[2 * i], path[2 * i + 1]))
  }

  function Encoded(path: Path, isLeaf: bool): Bytes {
    [FirstByte(path, isLeaf)] + Packed(path[|path| % 2..])
  }

  lemma EncodedStart(path: Path, isLeaf: bool)
    ensures var r := Encoded(path, isLeaf); |r| == 1 + |path| / 2 && Start(r) == 2 - |path| % 2
  {
    assert Encoded(path, isLeaf)[0] == FirstByte(path, isLeaf);
  }

  lemma PackedAt(path: Path, i: nat)
    requires |path| % 2 == 0 && i < |path|
    ensures i / 2 < |Packed(path)| && NibbleAt(Packed(path), i) == path[i]
  {
    var b := i / 2;
    assert Packed(path)[b] == Joined(path[2 * b], path[2 * b + 1]);
    assert i == 2 * b || i == 2 * b + 1;
  }

  lemma ShiftedAt(first: Byte, rest: Bytes, i: nat)
    requires i / 2 < |rest|
    ensures (i + 2) / 2 < |[first] + rest| && NibbleAt([first] + rest, i + 2) == NibbleAt(rest, i)
  {
    assert (i + 2) / 2 == i / 2 + 1;
  }

  lemma EncodedAt(path: Path, isLeaf: bool, i: nat)
    requires i < |path|
    ensures var r := Encoded(path, isLeaf); var j := Start(r) + i;
            j / 2 < |r| && NibbleAt(r, j) == path[i]
  {
    var r, odd := Encoded(path, isLeaf), |path| % 2;
    EncodedStart(path, isLeaf);
    if i < odd {
      assert r[0] == FirstByte(path, isLeaf);
    } else {
      hide FirstByte, Joined;
      var rest := path[odd..];
      PackedAt(rest, i - odd);
      assert rest[i - odd] == path[i];
      ShiftedAt(r[0], Packed(rest), i - odd);
      assert r == [r[0]] + Packed(rest);
    }
  }

  lemma LeafFlag(path: Path, isLeaf: bool)
    ensures FirstByte(path, isLeaf) / 32 % 2 == 1 <==> isLeaf
  {
    var low: int := if |path| % 2 == 1 then 16 + path[0] as int else 0;
    assert FirstByte(path, isLeaf) == low + (if isLeaf then 32 else 0) && 0 <= low < 32;
  }

  /** Decoding an encoded path returns the path and what it ends in. */
  lemma DecodeUndoesEncode(path: Path, isLeaf: bool)
    ensures FromEncoded(Encoded(path, isLeaf)) == Some(Decoded(path, isLeaf))
  {
    var r := Encoded(path, isLeaf);
    assert r[0] == FirstByte(path, isLeaf);
    LeafFlag(path, isLeaf);
    EncodedStart(path, isLeaf);
    hide FirstByte, Joined, NibbleAt, Packed, Encoded, Start;
    var p := PathFrom(r, Start(r));
    assert |p| == |path|;
    forall i | 0 <= i < |path|
      ensures p[i] == path[i]
    {
      EncodedAt(path, isLeaf, i);
    }
    assert p == path;
  }

  /** The flags use two of the four upper bits, and without a nibble the lower half of the byte is zero. */
  predicate IsCanonical(data: Bytes) {
    data != [] && data[0] < 64 && (data[0] / 16 % 2 == 0 ==> data[0] % 16 == 0)
  }

  lemma JoinedHalves(b: Byte)
    ensures Joined(b / 16, b % 16) == b
  {
  }

  lemma FirstByteKept(b: Byte)
    ensures var odd, leaf := b / 16 % 2 == 1, b / 32 % 2 == 1;
            (if odd then Joined(1, b % 16) else 0) + (if leaf then 32 else 0) == b <==>
            b < 64 && (b / 16 % 2 == 0 ==> b % 16 == 0)
  {
    var h, l := b / 16, b % 16;
    assert b / 32 == h / 2;
    assert b == 16 * h + l;
  }

  lemma TwoNibbles(data: Bytes, i: nat)
    requires i < |data|
    ensures (2 * i) / 2 == i && (2 * i + 1) / 2 == i
    ensures NibbleAt(data, 2 * i) == data[i] / 16 && NibbleAt(data, 2 * i + 1) == data[i] % 16
  {
  }

  /** Without the nibble in the first byte, the path is all nibbles after that byte. */
  lemma RestOfPath(data: Bytes)
    requires data != []
    ensures var path := PathFrom(data, Start(data)); path[|path| % 2..] == PathFrom(data, 2)
  {
    hide NibbleAt;
    var path := PathFrom(data, Start(data));
    assert |path| % 2 == 2 - Start(data);
    var rest := path[|path| % 2..];
    forall j | 0 <= j < |rest|
      ensures rest[j] == PathFrom(data, 2)[j]
    {
      assert rest[j] == path[|path| % 2 + j];
    }
  }

  /** After the first byte nothing is lost. */
  lemma OtherBytesKept(data: Bytes, i: nat)
    requires 1 <= i < |data|
    ensures Packed(PathFrom(data, 2))[i - 1] == data[i]
  {
    hide NibbleAt, Joined;
    var rest := PathFrom(data, 2);
    assert Packed(rest)[i - 1] == Joined(rest[2 * (i - 1)], rest[2 * (i - 1) + 1]);
    TwoNibbles(data, i);
    JoinedHalves(data[i]);
  }

  lemma FirstByteDecoded(data: Bytes)
    requires data != []
    ensures var d := FromEncoded(data).value; FirstByte(d.path, d.isLeaf) == data[0] <==> IsCanonical(data)
  {
    var path := FromEncoded(data).value.path;
    assert |path| % 2 == 2 - Start(data);
    assert |path| % 2 == 1 ==> path[0] == NibbleAt(data, 1) == data[0] % 16;
    FirstByteKept(data[0]);
    hide Joined;
  }

  /** Encoding a decoded path returns the bytes, if and only if these are canonical. */
  lemma EncodeUndoesDecodeIff(data: Bytes)
    requires data != []
    ensures var d := FromEncoded(data).value; Encoded(d.path, d.isLeaf) == data <==> IsCanonical(data)
  {
    var d := FromEncoded(data).value;
    var first, rest := FirstByte(d.path, d.isLeaf), Packed(PathFrom(data, 2));
    FirstByteDecoded(data);
    RestOfPath(data);
    assert |rest| == |data| - 1;
    hide FirstByte, Packed, Joined, NibbleAt, PathFrom, Start, IsCanonical;
    assert Encoded(d.path, d.isLeaf) == [first] + rest;
    forall i | 1 <= i < |data|
      ensures rest[i - 1] == data[i]
    {
      OtherBytesKept(data, i);
    }
    assert rest == data[1..];
    assert data == [data[0]] + data[1..];
    assert ([first] + rest)[0] == first;
  }

  lemma EncodedIsCanonical(path: Path, isLeaf: bool)
    ensures IsCanonical(Encoded(path, isLeaf))
  {
    DecodeUndoesEncode(path, isLeaf);
    EncodeUndoesDecodeIff(Encoded(path, isLeaf));
  }

  lemma PackedTwoMore(path: Path, high: Nibble, low: Nibble)
    requires |path| % 2 == 0
    ensures Packed(path + [high, low]) == Packed(path) + [Joined(high, low)]
  {
  }

  lemma PackedNothing(path: Path)
    requires path == []
    ensures Packed(path) == []
  {
  }

  /** `encode_nibbles`. */
  method EncodeNibbles(nibbles: Path, isLeaf: bool) returns (r: Bytes)
    ensures r == Encoded(nibbles, isLeaf)
    ensures FromEncoded(r) == Some(Decoded(nibbles, isLeaf)) && IsCanonical(r)
  {
    hide FirstByte, Packed, Joined, FromEncoded, IsCanonical;
    var i := |nibbles| % 2;
    ghost var odd, pairs := i, 0;
    r := [FirstByte(nibbles, isLeaf)];
    PackedNothing(nibbles[odd..odd]);
    while i < |nibbles|
      invariant i == odd + 2 * pairs <= |nibbles|
      invariant |nibbles[odd..i]| % 2 == 0 && r == [FirstByte(nibbles, isLeaf)] + Packed(nibbles[odd..i])
    {
      PackedTwoMore(nibbles[odd..i], nibbles[i], nibbles[i + 1]);
      assert nibbles[odd..i + 2] == nibbles[odd..i] + [nibbles[i], nibbles[i + 1]];
      r := r + [Joined(nibbles[i], nibbles[i + 1])];
      i, pairs := i + 2, pairs + 1;
    }
    assert nibbles[odd..|nibbles|] == nibbles[odd..];
    DecodeUndoesEncode(nibbles, isLeaf);
    EncodedIsCanonical(nibbles, isLeaf);
  }

  /** `nibbles_to_hex`: one digit per nibble. */
  function PathText(path: Path): string {
    seq(|path|, i requires 0 <= i < |path| => HexDigit(path[i]))
  }

  function PathOf(hex: string): Option<Path> {
    if hex == [] then Some([])
    else
      var init :- PathOf(hex[..|hex| - 1]);
      var digit :- HexValue(hex[|hex| - 1]);
      Some(init + [digit])
  }

  lemma {:induction false} NoPathOf(hex: string, i: nat)
    requires i <= |hex| && PathOf(hex[..i]).None?
    ensures PathOf(hex).None?
    decreases |hex| - i
  {
    if i == |hex| {
      assert hex[..i] == hex;
    } else {
      assert hex[..i + 1][..i] == hex[..i];
      NoPathOf(hex, i + 1);
    }
  }

  /** `nibbles_from_hex`: one nibble per digit, from the first to the last. */
  method NibblesFromHex(hex: string) returns (r: Option<Path>)
    ensures r == PathOf(hex)
  {
    var path: Path := [];
    for i := 0 to |hex|
      invariant PathOf(hex[..i]) == Some(path)
    {
      assert hex[..i + 1][..i] == hex[..i];
      var digit := HexValue(hex[i]);
      if digit.None? {
        NoPathOf(hex, i + 1);
        return None;
      }
      path := path + [digit.value];
    }
    assert hex[..|hex|] == hex;
    return Some(path);
  }

  /** A text is read exactly when all its characters are digits, and then each nibble is the value of its digit. */
  lemma {:induction false} PathOfIs(hex: string)
    ensures PathOf(hex).Some? <==> forall i :: 0 <= i < |hex| ==> HexValue(hex[i]).Some?
    ensures PathOf(hex).Some? ==>
      && |PathOf(hex).value| == |hex|
      && forall i :: 0 <= i < |hex| ==> HexValue(hex[i]) == Some(PathOf(hex).value[i] as nat)
  {
    if hex != [] {
      PathOfIs(hex[..|hex| - 1]);
    }
  }

  /** Reading a displayed path returns the path. */
  lemma {:induction false} PathIsReadBack(path: Path)
    ensures PathOf(PathText(path)) == Some(path)
  {
    if path != [] {
      var init, last := path[..|path| - 1], path[|path| - 1];
      PathIsReadBack(init);
      HexDigitIsReadBack(last);
      var s := PathText(path);
      assert s[..|s| - 1] == PathText(init) && s[|s| - 1] == HexDigit(last);
      assert path == init + [last];
    }
  }

  lemma PackedFirst(path: Path)
    requires |path| % 2 == 0 && path != []
    ensures Packed(path) == [Joined(path[0], path[1])] + Packed(path[2..])
  {
    hide Joined;
    var rest := path[2..];
    var whole, parts := Packed(path), [Joined(path[0], path[1])] + Packed(rest);
    assert |whole| == |parts|;
    forall i | 0 <= i < |whole|
      ensures whole[i] == parts[i]
    {
      if i > 0 {
        var j := i - 1;
        assert rest[2 * j] == path[2 * i] && rest[2 * j + 1] == path[2 * i + 1];
        assert parts[i] == Packed(rest)[j] == Joined(rest[2 * j], rest[2 * j + 1]);
      }
    }
  }

  lemma TextFirst(path: Path)
    requires |path| >= 2
    ensures PathText(path) == [HexDigit(path[0]), HexDigit(path[1])] + PathText(path[2..])
  {
    hide HexDigit;
  }

  lemma HexFirst(b: Byte, bytes: Bytes)
    ensures Hex([b] + bytes) == [HexDigit(b / 16), HexDigit(b % 16)] + Hex(bytes)
  {
    assert ([b] + bytes)[1..] == bytes;
  }

  /** The bytes behind the first one spell the path: printed, they are its text. */
  lemma {:induction false} PackedSpellsPath(path: Path)
    requires |path| % 2 == 0
    ensures Hex(Packed(path)) == PathText(path)
  {
    if path != [] {
      PackedSpellsPath(path[2..]);
      PackedFirst(path);
      TextFirst(path);
      var b := Joined(path[0], path[1]);
      assert b / 16 == path[0] as int && b % 16 == path[1] as int;
      hide Packed, PathText, Hex, Joined, HexDigit;
      HexFirst(b, Packed(path[2..]));
    }
  }

  lemma PathTextIsInjective(p: Path, q: Path)
    requires PathText(p) == PathText(q)
    ensures p == q
  {
    PathIsReadBack(p);
    PathIsReadBack(q);
  }
}
