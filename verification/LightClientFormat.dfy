/**
 The bytes of the next block producers, which the light client writes by hand, against the
 Borsh form of the same list, which the header's hash is taken of.
 */
module LightClientFormat {
  import opened Wrappers
  import opened ByteStrings
  import opened Borsh
  import opened BorshLayout
  import opened LightClient
  import opened LightClientLaws
  import opened Sequences

  function BpCodec(k: Crypto): Codec {
    Codec(map[], k.utf8, b => None)
  }

  const BP_TYPES: seq<FieldType> := [Str, UInt(8), FixedBytes(32), UInt(128)]

  /** A producer is a version tag, if it has one, the account, the key with the tag of its curve, and the stake. */
  function BpTypes(versioned: bool): seq<FieldType> {
    if versioned then [UInt(8)] + BP_TYPES else BP_TYPES
  }

  /** Account and key can be decoded, the key has 32 bytes, and all numbers fit into their fields. */
  predicate IsOrdinary(k: Crypto, p: Producer) {
    && k.utf8(p.accountId).Some? && |k.utf8(p.accountId).value| < 0x1_0000_0000
    && k.b58decode(WithoutPrefix(p.publicKey)).Some? && |k.b58decode(WithoutPrefix(p.publicKey)).value| == 32
    && SerNum(p.stake, 16).Some? && (p.structVersion.Some? ==> 1 <= p.structVersion.value <= 256)
  }

  function BpFields(k: Crypto, p: Producer): seq<Value>
    requires IsOrdinary(k, p)
  {
    var fields := [VStr(p.accountId), VNum(0), VBytes(k.b58decode(WithoutPrefix(p.publicKey)).value), VNum(p.stake)];
    if p.structVersion.Some? then [VNum(p.structVersion.value - 1)] + fields else fields
  }

  /** What Borsh writes for a producer. */
  function BorshBp(k: Crypto, p: Producer): Option<Bytes>
    requires IsOrdinary(k, p)
  {
    Ser(BpCodec(k), VTuple(BpFields(k, p)), Tuple(BpTypes(p.structVersion.Some?)))
  }

  lemma LengthFits(n: nat)
    requires n < 0x1_0000_0000
    ensures SerNum(n, 4).Some? && |SerNum(n, 4).value| == 4
    ensures SerNum(n, 4).value == [5, 0, 0, 0] <==> n == 5
  {
    NumFitsIff(n, 4);
    assert Pow256(4) == 0x1_0000_0000 by {
      assert Pow256(1) == 256 && Pow256(2) == 65536;
    }
    NumRoundTrip(n, 4);
    assert DeNum([5, 0, 0, 0]) == 5 by {
      assert [5, 0, 0, 0][1..] == [0, 0, 0];
      DeZeros([0, 0, 0]);
    }
    NumCanonical([5, 0, 0, 0]);
  }

  function VersionBytes(p: Producer): Bytes
    requires p.structVersion.Some? ==> 1 <= p.structVersion.value <= 256
  {
    if p.structVersion.Some? then [p.structVersion.value - 1] else []
  }

  function AfterLength(account: Bytes, key: Bytes, stake: Bytes): Bytes {
    account + [0] + key + stake
  }

  lemma Regroup(len: Bytes, account: Bytes, key: Bytes, stake: Bytes)
    ensures (len + account) + [0] + key + stake == len + AfterLength(account, key, stake)
  {
  }

  lemma FieldsAreWritten(k: Crypto, p: Producer, account: Bytes, key: Bytes)
    requires IsOrdinary(k, p) && k.utf8(p.accountId) == Some(account)
    requires k.b58decode(WithoutPrefix(p.publicKey)) == Some(key) && SerNum(|account|, 4).Some?
    ensures var fields := [VStr(p.accountId), VNum(0), VBytes(key), VNum(p.stake)];
            var bs := [SerNum(|account|, 4).value + account, [0], key, SerNum(p.stake, 16).value];
            && AreWritten(BpCodec(k), fields, BP_TYPES, bs)
            && Flat(bs) == SerNum(|account|, 4).value + AfterLength(account, key, SerNum(p.stake, 16).value)
  {
    hide Ser, SerNum, Flat, AfterLength;
    var c, name := BpCodec(k), SerNum(|account|, 4).value + account;
    StringIs(c, VStr(p.accountId));
    UIntIs(c, VNum(0), 8);
    OneByte(0);
    FixedBytesIs(c, VBytes(key), 32);
    UIntIs(c, VNum(p.stake), 128);
    FlatFour(name, [0], key, SerNum(p.stake, 16).value);
    Regroup(SerNum(|account|, 4).value, account, key, SerNum(p.stake, 16).value);
  }

  lemma BorshBpIs(k: Crypto, p: Producer, account: Bytes, key: Bytes)
    requires IsOrdinary(k, p) && k.utf8(p.accountId) == Some(account)
    requires k.b58decode(WithoutPrefix(p.publicKey)) == Some(key) && SerNum(|account|, 4).Some?
    ensures BorshBp(k, p) == Some(VersionBytes(p)
                                  + (SerNum(|account|, 4).value + AfterLength(account, key, SerNum(p.stake, 16).value)))
  {
    hide Ser, SerNum, Flat, AfterLength, BpCodec;
    FieldsAreWritten(k, p, account, key);
    var c, fields, types := BpCodec(k), BpFields(k, p), BpTypes(p.structVersion.Some?);
    var bs := [SerNum(|account|, 4).value + account, [0], key, SerNum(p.stake, 16).value];
    var all := if p.structVersion.Some? then [VersionBytes(p)] + bs else bs;
    if p.structVersion.Some? {
      var version := p.structVersion.value - 1;
      UIntIs(c, VNum(version), 8);
      OneByte(version);
      FlatAppend([VersionBytes(p)], bs);
      FlatOne(VersionBytes(p));
    } else {
      assert [] + Flat(bs) == Flat(bs);
    }
    assert AreWritten(c, fields, types, all);
    TupleIs(c, VTuple(fields), types, all);
  }

  lemma BpIs(k: Crypto, p: Producer, account: Bytes, key: Bytes)
    requires IsOrdinary(k, p) && k.utf8(p.accountId) == Some(account)
    requires k.b58decode(WithoutPrefix(p.publicKey)) == Some(key)
    ensures SerializeBp(k, p) ==
            Some(VersionBytes(p) + ([5, 0, 0, 0] + AfterLength(account, key, SerNum(p.stake, 16).value)))
  {
    hide SerNum, LowBytes, AfterLength;
    LowBytesKeepAll(p.stake, 16);
    var version, stake := VersionBytes(p), LowBytes(p.stake, 16);
    assert SerializeBp(k, p) == Some(version + [5, 0, 0, 0] + account + [0] + key + stake);
    Regroup(version + [5, 0, 0, 0], account, key, stake);
    var rest := AfterLength(account, key, stake);
    assert version + [5, 0, 0, 0] + rest == version + ([5, 0, 0, 0] + rest);
  }

  lemma LengthBinds(version: Bytes, a: Bytes, b: Bytes, rest: Bytes)
    requires |a| == |b|
    ensures version + (a + rest) == version + (b + rest) <==> a == b
  {
    var x, y := version + (a + rest), version + (b + rest);
    assert x[|version|..|version| + |a|] == a && y[|version|..|version| + |b|] == b;
  }

  /** The client writes a producer as Borsh does if and only if the account has five bytes. */
  lemma BpIsBorshIff(k: Crypto, p: Producer)
    requires IsOrdinary(k, p)
    ensures BorshBp(k, p).Some?
    ensures SerializeBp(k, p) == BorshBp(k, p) <==> |k.utf8(p.accountId).value| == 5
  {
    hide SerNum, SerializeBp, BorshBp, AfterLength, VersionBytes;
    var account, key := k.utf8(p.accountId).value, k.b58decode(WithoutPrefix(p.publicKey)).value;
    LengthFits(|account|);
    BorshBpIs(k, p, account, key);
    BpIs(k, p, account, key);
    LengthBinds(VersionBytes(p), [5, 0, 0, 0], SerNum(|account|, 4).value,
        AfterLength(account, key, SerNum(p.stake, 16).value));
  }

  function BpValues(k: Crypto, bps: seq<Producer>): (r: seq<Value>)
    requires forall i :: 0 <= i < |bps| ==> IsOrdinary(k, bps[i])
    ensures |r| == |bps| && forall i :: 0 <= i < |bps| ==> r[i] == VTuple(BpFields(k, bps[i]))
  {
    seq(|bps|, i requires 0 <= i < |bps| => VTuple(BpFields(k, bps[i])))
  }

  lemma {:induction false} EachBpIsFlat(k: Crypto, bps: seq<Producer>, bs: seq<Bytes>)
    requires |bs| == |bps| && forall i :: 0 <= i < |bps| ==> SerializeBp(k, bps[i]) == Some(bs[i])
    ensures SerializeEachBp(k, bps) == Some(Flat(bs))
  {
    hide SerializeBp, Flat;
    if bps == [] {
      assert bs == [];
      FlatFirst<Byte>([], []);
    } else {
      var n := |bps| - 1;
      EachBpIsFlat(k, bps[..n], bs[..n]);
      FlatLast(bs, n);
      assert bs[..n + 1] == bs;
    }
  }

  lemma ShortLength(b: Byte)
    ensures SerNum(b, 4) == Some([b] + [0, 0, 0])
  {
    assert DeNum([b, 0, 0, 0]) == b by {
      assert [b, 0, 0, 0][1..] == [0, 0, 0];
      DeZeros([0, 0, 0]);
    }
    NumCanonical([b, 0, 0, 0]);
  }

  /** With such accounts the whole list is written as Borsh does, up to 255 producers; from 256 on it is refused. */
  lemma BpsAreBorsh(k: Crypto, bps: seq<Producer>, versioned: bool)
    requires forall i :: 0 <= i < |bps| ==> IsOrdinary(k, bps[i]) && bps[i].structVersion.Some? == versioned
    requires forall i :: 0 <= i < |bps| ==>
      k.utf8(bps[i].accountId).Some? && |k.utf8(bps[i].accountId).value| == 5
    ensures |bps| < 256 ==>
      SerializeBps(k, bps) == Ser(BpCodec(k), VList(BpValues(k, bps)), List(Tuple(BpTypes(versioned))))
    ensures |bps| >= 256 ==> SerializeBps(k, bps).None?
  {
    hide Ser, SerializeBp, SerializeEachBp, IsOrdinary, BpFields, Flat;
    if |bps| < 256 {
      var c, values := BpCodec(k), BpValues(k, bps);
      forall i | 0 <= i < |bps|
        ensures BorshBp(k, bps[i]).Some? && SerializeBp(k, bps[i]) == BorshBp(k, bps[i])
      {
        BpIsBorshIff(k, bps[i]);
      }
      var bs := seq(|bps|, i requires 0 <= i < |bps| => BorshBp(k, bps[i]).value);
      ListIs(c, VList(values), Tuple(BpTypes(versioned)), bs);
      EachBpIsFlat(k, bps, bs);
      ShortLength(|bps|);
    }
  }

  /** What is signed is the digest of the next block's inner hash with the hash of this block. */
  lemma NextBlockHashIs(k: Crypto, b: Block, msg: Bytes, rest: Bytes, prev: Bytes, inner: Bytes)
    requires IsSane(k) && InnerLiteMessage(k, b.innerLite) == Some(msg) && k.b58decode(b.innerRestHash) == Some(rest)
    requires k.b58decode(b.prevBlockHash) == Some(prev) && k.b58decode(b.nextBlockInnerHash) == Some(inner)
    ensures NextBlockHash(k, b) == Some(k.sha(inner + k.sha(k.sha(k.sha(msg) + rest) + prev)))
  {
    hide InnerLiteMessage;
    BlockHashIs(k, b.innerLite, b.innerRestHash, b.prevBlockHash, msg, rest, prev);
  }

  lemma PrefixIsDropped(s: string)
    ensures WithoutPrefix("ed25519:" + s) == s
  {
    assert |"ed25519:"| == 8;
  }

  /**
   An approval counts if and only if its signature of the next hash and of the height plus two,
   as a 64-bit number, verifies with the producer's key; both are base58 behind "ed25519:".
   */
  lemma ApprovalIsVerified(k: Crypto, signature: string, key: string, p: Producer, nextHash: Bytes, height: int)
    requires p.publicKey == "ed25519:" + key
    ensures IsApproved(k, "ed25519:" + signature, p, nextHash, height) <==>
            && k.b58decode(signature).Some? && k.b58decode(key).Some? && -2 <= height <= 253
            && SerNum(height + 2, 8).Some?
            && k.verify(k.b58decode(key).value, [0] + nextHash + SerNum(height + 2, 8).value,
                        k.b58decode(signature).value)
  {
    hide SerNum, ApprovalMessage, WithoutPrefix;
    PrefixIsDropped(signature);
    PrefixIsDropped(key);
    ApprovalLayout(nextHash, height);
  }
}
