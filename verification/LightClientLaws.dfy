/**
 What a light client may rely on: a block hash binds the header, two quorums overlap, and over
 every run each list of producers is linked to the initial map by a chain of quorums.
 */
module LightClientLaws {
  import opened Wrappers
  import opened ByteStrings
  import opened Borsh
  import opened BorshLaws
  import opened BorshLayout
  import opened LightClient
  import opened Sequences

  /** Digests have 32 bytes and base58 can be undone. */
  ghost predicate IsSane(k: Crypto) {
    && (forall x :: |k.sha(x)| == 32)
    && (forall b :: k.b58decode(k.b58encode(b)) == Some(b))
  }

  /** Two different byte strings with one digest. */
  predicate Collides(k: Crypto, x: Bytes, y: Bytes) {
    x != y && k.sha(x) == k.sha(y)
  }

  // Block hashes bind the header

  lemma DistinctFields()
    ensures forall i, j :: 0 <= i < j < |INNER_LITE_FIELDS| ==> INNER_LITE_FIELDS[i].name != INNER_LITE_FIELDS[j].name
  {
    assert |"height"| == 6 && |"epoch_id"| == 8 && |"next_epoch_id"| == 13 && |"prev_state_root"| == 15
        && |"outcome_root"| == 12 && |"timestamp"| == 9 && |"next_bp_hash"| == 12 && |"block_merkle_root"| == 17;
    assert "outcome_root"[0] != "next_bp_hash"[0];
  }

  lemma InnerLiteShape(values: seq<Value>)
    requires |values| == 8
    ensures Shape(InnerLiteCodec(), InnerLiteObject(values), Class(INNER_LITE)) ==
        Some(Node([], values, FieldTypes(INNER_LITE_FIELDS)))
  {
    hide SetAttrs;
    var v := InnerLiteObject(values);
    DistinctFields();
    FieldsAreValues(INNER_LITE_FIELDS, values);
    assert seq(8, i requires 0 <= i < 8 => v.attrs[INNER_LITE_FIELDS[i].name]) == values;
  }

  predicate IsFlat(v: Value, t: FieldType) {
    (v.VNum? && t.UInt?) || (v.VBytes? && t.FixedBytes?)
  }

  lemma FlatIsNormal(c: Codec, v: Value, t: FieldType)
    requires IsFlat(v, t)
    ensures Norm(c, v, t) == v
  {
  }

  lemma InnerLiteIsFlat(k: Crypto, v: InnerLite)
    requires InnerLiteValues(k, v).Some?
    ensures forall i :: 0 <= i < 8 ==> IsFlat(InnerLiteValues(k, v).value[i], FieldTypes(INNER_LITE_FIELDS)[i])
  {
  }

  lemma BuildInnerLite(values: seq<Value>)
    requires |values| == 8
    ensures var obj := InnerLiteObject(values); Build(KindOf(InnerLiteCodec(), obj, Class(INNER_LITE)), values) == obj
  {
    hide SetAttrs;
  }

  /** The fields of an inner header, once written, are their own normal form. */
  lemma InnerLiteIsNormal(k: Crypto, v: InnerLite)
    requires InnerLiteValues(k, v).Some?
    ensures var values := InnerLiteValues(k, v).value;
            Norm(InnerLiteCodec(), InnerLiteObject(values), Class(INNER_LITE)) == InnerLiteObject(values)
  {
    hide Norm, Shape, SetAttrs, InnerLiteValues, InnerLiteObject, InnerLiteCodec, KindOf, Build, IsFlat;
    var c, types := InnerLiteCodec(), FieldTypes(INNER_LITE_FIELDS);
    var values := InnerLiteValues(k, v).value;
    InnerLiteShape(values);
    NormLevel(c, InnerLiteObject(values), Class(INNER_LITE), Node([], values, types));
    InnerLiteIsFlat(k, v);
    forall i | 0 <= i < 8
      ensures Norm(c, values[i], types[i]) == values[i]
    {
      FlatIsNormal(c, values[i], types[i]);
    }
    assert Norms(c, values, types) == values;
    BuildInnerLite(values);
  }

  lemma ObjectDeterminesValues(values: seq<Value>, values': seq<Value>)
    requires |values| == |values'| == 8 && InnerLiteObject(values) == InnerLiteObject(values')
    ensures values == values'
  {
    forall i | 0 <= i < 8
      ensures values[i] == values'[i]
    {
      DistinctFields();
      SetAttrsGets(map[], INNER_LITE_FIELDS, values, i);
      SetAttrsGets(map[], INNER_LITE_FIELDS, values', i);
    }
  }

  lemma MessageBindsFields(k: Crypto, v: InnerLite, w: InnerLite)
    requires InnerLiteMessage(k, v).Some? && InnerLiteMessage(k, v) == InnerLiteMessage(k, w)
    ensures InnerLiteValues(k, v) == InnerLiteValues(k, w)
  {
    hide Ser, Norm, InnerLiteObject;
    var x, y := InnerLiteValues(k, v).value, InnerLiteValues(k, w).value;
    assert IsUtf8(InnerLiteCodec());
    WriteIsInjective(InnerLiteCodec(), InnerLiteObject(x), InnerLiteObject(y), Class(INNER_LITE));
    InnerLiteIsNormal(k, v);
    InnerLiteIsNormal(k, w);
    ObjectDeterminesValues(x, y);
  }

  lemma SplitAt32(a: Bytes, b: Bytes, x: Bytes, y: Bytes)
    requires |a| == |x| == 32 && a + b == x + y
    ensures a == x && b == y
  {
    assert a == (a + b)[..32] && x == (x + y)[..32];
    assert b == (a + b)[32..] && y == (x + y)[32..];
  }

  /** What a block hash is computed from: the decoded fields of the inner header and the two other digests. */
  function Contents(k: Crypto, b: Block): (Option<seq<Value>>, Option<Bytes>, Option<Bytes>) {
    (InnerLiteValues(k, b.innerLite), k.b58decode(b.innerRestHash), k.b58decode(b.prevBlockHash))
  }

  /** The three strings that are hashed on the way to a block hash. */
  function HashedStrings(k: Crypto, b: Block): (r: seq<Bytes>)
    requires RawBlockHash(k, b.innerLite, b.innerRestHash, b.prevBlockHash).Some?
    ensures |r| == 3
  {
    var msg := InnerLiteMessage(k, b.innerLite).value;
    var inner := k.sha(msg) + k.b58decode(b.innerRestHash).value;
    [msg, inner, k.sha(inner) + k.b58decode(b.prevBlockHash).value]
  }

  /**
   Equal block hashes mean equal contents: all eight inner fields, the inner rest hash and the
   previous hash.  Otherwise one of the three pairs of strings hashed on the way is a collision.
   */
  lemma BlockHashBindsContents(k: Crypto, a: Block, b: Block)
    requires IsSane(k)
    requires ComputeBlockHash(k, a.innerLite, a.innerRestHash, a.prevBlockHash).Some?
    requires ComputeBlockHash(k, a.innerLite, a.innerRestHash, a.prevBlockHash) ==
        ComputeBlockHash(k, b.innerLite, b.innerRestHash, b.prevBlockHash)
    ensures || Contents(k, a) == Contents(k, b)
            || exists i :: 0 <= i < 3 && Collides(k, HashedStrings(k, a)[i], HashedStrings(k, b)[i])
  {
    hide InnerLiteMessage, InnerLiteValues;
    var x, y := HashedStrings(k, a), HashedStrings(k, b);
    assert k.b58decode(k.b58encode(k.sha(x[2]))) == k.b58decode(k.b58encode(k.sha(y[2])));
    if forall i :: 0 <= i < 3 ==> !Collides(k, x[i], y[i]) {
      assert !Collides(k, x[2], y[2]) && !Collides(k, x[1], y[1]) && !Collides(k, x[0], y[0]);
      SplitAt32(k.sha(x[1]), k.b58decode(a.prevBlockHash).value, k.sha(y[1]), k.b58decode(b.prevBlockHash).value);
      SplitAt32(k.sha(x[0]), k.b58decode(a.innerRestHash).value, k.sha(y[0]), k.b58decode(b.innerRestHash).value);
      MessageBindsFields(k, a.innerLite, b.innerLite);
    }
  }

  // Quorums

  /** Every producer counts at most once in the union: the two parts overlap in at least their excess. */
  lemma {:induction false} StakeOverlap(bps: seq<Producer>, p: nat -> bool, q: nat -> bool, both: nat -> bool)
    requires forall i :: both(i) == (p(i) && q(i))
    ensures StakeOf(bps, p) + StakeOf(bps, q) <= TotalStake(bps) + StakeOf(bps, both)
  {
    if bps != [] {
      StakeOverlap(bps[..|bps| - 1], p, q, both);
    }
  }

  function Both(a: seq<Option<string>>, b: seq<Option<string>>): nat -> bool {
    (i: nat) => Present(a)(i) && Present(b)(i)
  }

  /** Two approval vectors above the rounded-down threshold share more than a third of the stake. */
  lemma QuorumsIntersect(bps: seq<Producer>, a: seq<Option<string>>, b: seq<Option<string>>)
    requires StakeOf(bps, Present(a)) > TotalStake(bps) * 2 / 3
    requires StakeOf(bps, Present(b)) > TotalStake(bps) * 2 / 3
    ensures 3 * StakeOf(bps, Both(a, b)) > TotalStake(bps)
  {
    StakeOverlap(bps, Present(a), Present(b), Both(a, b));
  }

  /** The block carries valid signatures of more than two thirds of the stake in `bps`. */
  ghost predicate HasQuorum(k: Crypto, b: Block, bps: seq<Producer>) {
    && NextBlockHash(k, b).Some? && |b.approvals| == |bps|
    && AllApproved(k, b.approvals, bps, NextBlockHash(k, b).value, b.innerLite.height)
    && 3 * StakeOf(bps, Present(b.approvals)) > 2 * TotalStake(bps)
  }

  /**
   A block passes the first part of the validation exactly when its epoch is expected and known and
   it has a quorum.
   */
  lemma AcceptedHasQuorum(k: Crypto, last: InnerLite, b: Block, producers: ProducersMap, panic: bool)
    ensures CheckQuorum(k, last, b, producers, panic) == Accepted <==>
            && (b.innerLite.epochId == last.epochId || b.innerLite.epochId == last.nextEpochId)
            && b.innerLite.epochId in producers && HasQuorum(k, b, producers[b.innerLite.epochId])
  {
    hide NextBlockHash, AllApproved, StakeOf;
  }

  /** The message that approves a block, for a height that fits into it. */
  function MessageFor(k: Crypto, b: Block): Option<Bytes> {
    var h :- NextBlockHash(k, b);
    ApprovalMessage(h, b.innerLite.height)
  }

  lemma {:induction false} SomeonePresent(bps: seq<Producer>, who: nat -> bool) returns (i: nat)
    requires StakeOf(bps, who) > 0
    ensures i < |bps| && who(i)
  {
    if who(|bps| - 1) {
      i := |bps| - 1;
    } else {
      i := SomeonePresent(bps[..|bps| - 1], who);
    }
  }

  /** Some approval is present in a quorum, so the height fits into the one byte the message has for it. */
  lemma QuorumBoundsHeight(k: Crypto, b: Block, bps: seq<Producer>)
    requires HasQuorum(k, b, bps)
    ensures b.innerLite.height + 2 < 256 && MessageFor(k, b).Some?
  {
    hide NextBlockHash;
    var i := SomeonePresent(bps, Present(b.approvals));
    assert IsApproved(k, b.approvals[i].value, bps[i], NextBlockHash(k, b).value, b.innerLite.height);
  }

  /** The two strings hashed into the hash that the approvals sign. */
  function NextHashString(k: Crypto, b: Block): Option<Bytes> {
    var inner :- k.b58decode(b.nextBlockInnerHash);
    var raw :- RawBlockHash(k, b.innerLite, b.innerRestHash, b.prevBlockHash);
    Some(inner + raw)
  }

  lemma NextHashIsSha(k: Crypto, b: Block)
    requires IsSane(k) && NextBlockHash(k, b).Some?
    ensures RawBlockHash(k, b.innerLite, b.innerRestHash, b.prevBlockHash).Some? && NextHashString(k, b).Some?
    ensures NextBlockHash(k, b) == Some(k.sha(NextHashString(k, b).value))
    ensures |RawBlockHash(k, b.innerLite, b.innerRestHash, b.prevBlockHash).value| == 32
  {
    hide InnerLiteMessage;
  }

  /** Some pair of corresponding strings hashed for the two blocks is a collision. */
  ghost predicate HashCollision(k: Crypto, a: Block, b: Block)
    requires RawBlockHash(k, a.innerLite, a.innerRestHash, a.prevBlockHash).Some? && NextHashString(k, a).Some?
    requires RawBlockHash(k, b.innerLite, b.innerRestHash, b.prevBlockHash).Some? && NextHashString(k, b).Some?
  {
    || Collides(k, NextHashString(k, a).value, NextHashString(k, b).value)
    || exists i :: 0 <= i < 3 && Collides(k, HashedStrings(k, a)[i], HashedStrings(k, b)[i])
  }

  lemma MessageParts(g: Bytes, h: Bytes, m: int, n: int)
    requires |g| == |h| == 32 && ApprovalMessage(g, m).Some? && ApprovalMessage(g, m) == ApprovalMessage(h, n)
    ensures g == h && m == n
  {
    var x, y := ApprovalMessage(g, m).value, ApprovalMessage(h, n).value;
    assert x[1..33] == g && y[1..33] == h;
    assert x[33] == m + 2 && y[33] == n + 2;
  }

  lemma EqualNextHashStrings(k: Crypto, a: Block, b: Block)
    requires IsSane(k) && NextBlockHash(k, a).Some? && NextBlockHash(k, b).Some?
    requires NextHashString(k, a).Some? && NextHashString(k, a) == NextHashString(k, b)
    ensures ComputeBlockHash(k, a.innerLite, a.innerRestHash, a.prevBlockHash).Some?
    ensures ComputeBlockHash(k, a.innerLite, a.innerRestHash, a.prevBlockHash) ==
        ComputeBlockHash(k, b.innerLite, b.innerRestHash, b.prevBlockHash)
  {
    hide InnerLiteMessage;
    NextHashIsSha(k, a);
    NextHashIsSha(k, b);
    var x, y := RawBlockHash(k, a.innerLite, a.innerRestHash, a.prevBlockHash).value,
        RawBlockHash(k, b.innerLite, b.innerRestHash, b.prevBlockHash).value;
    var s, t := NextHashString(k, a).value, NextHashString(k, b).value;
    assert x == s[|s| - 32..] && y == t[|t| - 32..];
  }

  /** Approvals of equal messages approve equal contents, up to a collision. */
  lemma MessageBindsContents(k: Crypto, a: Block, b: Block)
    requires IsSane(k) && MessageFor(k, a).Some? && MessageFor(k, a) == MessageFor(k, b)
    ensures NextBlockHash(k, a).Some? && NextBlockHash(k, b).Some?
    ensures RawBlockHash(k, a.innerLite, a.innerRestHash, a.prevBlockHash).Some? && NextHashString(k, a).Some?
    ensures RawBlockHash(k, b.innerLite, b.innerRestHash, b.prevBlockHash).Some? && NextHashString(k, b).Some?
    ensures a.innerLite.height == b.innerLite.height
    ensures Contents(k, a) == Contents(k, b) || HashCollision(k, a, b)
  {
    hide InnerLiteMessage, InnerLiteValues, RawBlockHash, NextBlockHash, NextHashString, HashedStrings, Contents;
    NextHashIsSha(k, a);
    NextHashIsSha(k, b);
    var g, h := NextBlockHash(k, a).value, NextBlockHash(k, b).value;
    MessageParts(g, h, a.innerLite.height, b.innerLite.height);
    var x, y := NextHashString(k, a).value, NextHashString(k, b).value;
    if x == y {
      EqualNextHashStrings(k, a, b);
      BlockHashBindsContents(k, a, b);
    }
  }

  /** The producer's key verifies signatures of two different messages. */
  ghost predicate SignedBoth(k: Crypto, p: Producer, x: string, y: string, m: Bytes, n: Bytes) {
    var key, sx, sy := k.b58decode(WithoutPrefix(p.publicKey)), k.b58decode(WithoutPrefix(x)),
        k.b58decode(WithoutPrefix(y));
    m != n && key.Some? && sx.Some? && sy.Some? && k.verify(key.value, m, sx.value) && k.verify(key.value, n, sy.value)
  }

  /**
   Accountability: when two blocks with different contents both have a quorum of the same
   producers, more than a third of the stake signed two different messages, or a collision of
   the hash is at hand.
   */
  lemma ConflictingBlocksExposeSigners(k: Crypto, a: Block, b: Block, bps: seq<Producer>)
    requires IsSane(k) && HasQuorum(k, a, bps) && HasQuorum(k, b, bps) && Contents(k, a) != Contents(k, b)
    ensures RawBlockHash(k, a.innerLite, a.innerRestHash, a.prevBlockHash).Some? && NextHashString(k, a).Some?
    ensures RawBlockHash(k, b.innerLite, b.innerRestHash, b.prevBlockHash).Some? && NextHashString(k, b).Some?
    ensures MessageFor(k, a).Some? && MessageFor(k, b).Some?
    ensures HashCollision(k, a, b) ||
            (&& 3 * StakeOf(bps, Both(a.approvals, b.approvals)) > TotalStake(bps)
             && forall i: nat :: i < |bps| && Both(a.approvals, b.approvals)(i) ==>
                  SignedBoth(k, bps[i], a.approvals[i].value, b.approvals[i].value, MessageFor(k, a).value,
                      MessageFor(k, b).value))
  {
    hide InnerLiteMessage, InnerLiteValues, RawBlockHash, NextBlockHash, NextHashString, HashedStrings, Contents,
        StakeOf, HashCollision;
    NextHashIsSha(k, a);
    NextHashIsSha(k, b);
    QuorumBoundsHeight(k, a, bps);
    QuorumBoundsHeight(k, b, bps);
    if MessageFor(k, a) == MessageFor(k, b) {
      MessageBindsContents(k, a, b);
    } else {
      QuorumsIntersect(bps, a.approvals, b.approvals);
      forall i: nat | i < |bps| && Both(a.approvals, b.approvals)(i)
        ensures SignedBoth(k, bps[i], a.approvals[i].value, b.approvals[i].value, MessageFor(k, a).value,
            MessageFor(k, b).value)
      {
        assert IsApproved(k, a.approvals[i].value, bps[i], NextBlockHash(k, a).value, a.innerLite.height);
        assert IsApproved(k, b.approvals[i].value, bps[i], NextBlockHash(k, b).value, b.innerLite.height);
      }
    }
  }

  // The hash of the next producers binds the list

  /** What the bytes of a producer are made from. */
  function Identity(k: Crypto, p: Producer): (Option<int>, Option<Bytes>, Option<Bytes>, nat) {
    (p.structVersion, k.utf8(p.accountId), k.b58decode(WithoutPrefix(p.publicKey)), p.stake)
  }

  /** An account, an ed25519 key and a 128-bit stake. */
  predicate IsRegular(k: Crypto, p: Producer) {
    var (_, account, key, stake) := Identity(k, p);
    account.Some? && key.Some? && |key.value| == 32 && SerNum(stake, 16).Some?
  }

  /** The second account goes on with a zero byte where the first one ends. */
  predicate ZeroExtends(a: Bytes, b: Bytes) {
    a + [0] <= b
  }

  /** Nothing in the bytes says where an account ends but the zero byte behind it. */
  predicate AreTellable(a: Bytes, b: Bytes) {
    !ZeroExtends(a, b) && !ZeroExtends(b, a)
  }

  /** The bytes of a producer after the optional version byte. */
  function AfterVersion(account: Bytes, key: Bytes, stake: nat): (r: Bytes)
    ensures |r| >= 2 && r[0] == 5 && r[1] == 0
  {
    [5, 0, 0, 0] + account + [0] + key + LowBytes(stake, 16)
  }

  lemma {:induction false} LowBytesKeepAll(value: nat, n: nat)
    requires SerNum(value, n).Some?
    ensures SerNum(value, n) == Some(LowBytes(value, n))
    decreases n
  {
    if n > 0 {
      LowBytesKeepAll(value / 256, n - 1);
    }
  }

  lemma LowBytesBind(a: nat, b: nat)
    requires SerNum(a, 16).Some? && SerNum(b, 16).Some?
    ensures |LowBytes(a, 16)| == |LowBytes(b, 16)| == 16
    ensures LowBytes(a, 16) == LowBytes(b, 16) ==> a == b
  {
    hide SerNum, LowBytes;
    LowBytesKeepAll(a, 16);
    LowBytesKeepAll(b, 16);
    NumRoundTrip(a, 16);
    NumRoundTrip(b, 16);
  }

  lemma WrittenOut(a: Bytes, key: Bytes, stake: nat, x: Bytes)
    ensures AfterVersion(a, key, stake) + x == [5, 0, 0, 0] + a + [0] + (key + LowBytes(stake, 16) + x)
  {
    hide LowBytes;
  }

  lemma AccountAt(a: Bytes, key: Bytes, stake: nat, x: Bytes)
    ensures var s := AfterVersion(a, key, stake) + x; |s| > |a| + 4 && s[4..|a| + 4] == a && s[|a| + 4] == 0
    ensures (AfterVersion(a, key, stake) + x)[|a| + 5..] == key + LowBytes(stake, 16) + x
  {
    hide LowBytes;
    WrittenOut(a, key, stake, x);
  }

  lemma CutShort(s: Bytes, a: Bytes, a': Bytes)
    requires |a| < |a'| && |s| > |a'| + 4 && s[4..|a| + 4] == a && s[|a| + 4] == 0 && s[4..|a'| + 4] == a'
    ensures ZeroExtends(a, a')
  {
    assert a' == a + [a'[|a|]] + a'[|a| + 1..];
    assert a'[|a|] == s[|a| + 4];
  }

  /** A shorter account is followed by a zero byte, so the longer one extends it. */
  lemma ShorterIsExtended(a: Bytes, key: Bytes, stake: nat, x: Bytes, a': Bytes, key': Bytes, stake': nat, x': Bytes)
    requires |a| < |a'| && AfterVersion(a, key, stake) + x == AfterVersion(a', key', stake') + x'
    ensures ZeroExtends(a, a')
  {
    var s := AfterVersion(a, key, stake) + x;
    AccountAt(a, key, stake, x);
    AccountAt(a', key', stake', x');
    hide AfterVersion;
    CutShort(s, a, a');
  }

  lemma AfterVersionBinds(a: Bytes, key: Bytes, stake: nat, x: Bytes, a': Bytes, key': Bytes, stake': nat, x': Bytes)
    requires AreTellable(a, a') && |key| == |key'| == 32 && SerNum(stake, 16).Some? && SerNum(stake', 16).Some?
    requires AfterVersion(a, key, stake) + x == AfterVersion(a', key', stake') + x'
    ensures a == a' && key == key' && stake == stake' && x == x'
  {
    hide SerNum, LowBytes;
    if |a| < |a'| {
      ShorterIsExtended(a, key, stake, x, a', key', stake', x');
    } else if |a'| < |a| {
      ShorterIsExtended(a', key', stake', x', a, key, stake, x);
    }
    LowBytesBind(stake, stake');
    AccountAt(a, key, stake, x);
    AccountAt(a', key', stake', x');
    var s, s' := key + LowBytes(stake, 16) + x, key' + LowBytes(stake', 16) + x';
    assert s[..32] == key && s'[..32] == key';
    assert s[32..48] == LowBytes(stake, 16) && s'[32..48] == LowBytes(stake', 16);
    assert s[48..] == x && s'[48..] == x';
  }

  /** The two accounts, each with some key, stake and continuation, have the same bytes. */
  ghost predicate AreConfused(a: Bytes, key: Bytes, stake: nat, x: Bytes, a': Bytes, key': Bytes, stake': nat,
                              x': Bytes) {
    && |key| == |key'| == 32 && SerNum(stake, 16).Some? && SerNum(stake', 16).Some?
    && AfterVersion(a, key, stake) + x == AfterVersion(a', key', stake') + x'
  }

  lemma Regroup(a: Bytes, a': Bytes, w: Bytes, tail: Bytes)
    requires ZeroExtends(a, a') && w == a'[|a| + 1..]
    ensures [5, 0, 0, 0] + a + [0] + (w + [0] + tail) == [5, 0, 0, 0] + a' + [0] + tail
  {
    assert a' == a + [0] + w;
  }

  lemma ReadBack(b: Bytes) returns (key: Bytes, stake: nat, x: Bytes)
    requires |b| >= 48
    ensures |key| == 32 && SerNum(stake, 16).Some? && key + LowBytes(stake, 16) + x == b
  {
    hide SerNum, LowBytes, DeNum;
    key, stake, x := b[..32], DeNum(b[32..48]), b[48..];
    NumCanonical(b[32..48]);
    LowBytesKeepAll(stake, 16);
    assert b == b[..32] + b[32..48] + b[48..];
  }

  /** Any continuation of the shorter account can be read as a key, a stake and the rest. */
  lemma Confusion(a: Bytes, a': Bytes) returns (key: Bytes, stake: nat, x: Bytes, key': Bytes, stake': nat, x': Bytes)
    requires ZeroExtends(a, a')
    ensures AreConfused(a, key, stake, x, a', key', stake', x')
  {
    hide AfterVersion, SerNum, LowBytes;
    var w := a'[|a| + 1..];
    var tail: Bytes := seq(48, _ => 0);
    key, stake, x := ReadBack(w + [0] + tail);
    key', stake', x' := ReadBack(tail);
    WrittenOut(a, key, stake, x);
    WrittenOut(a', key', stake', x');
    Regroup(a, a', w, tail);
  }

  /** Different accounts can be confused exactly when one goes on with a zero byte where the other ends. */
  lemma AccountsAreConfusedIff(a: Bytes, a': Bytes)
    requires a != a'
    ensures (exists key, stake, x, key', stake', x' :: AreConfused(a, key, stake, x, a', key', stake', x')) <==>
      !AreTellable(a, a')
  {
    if key, stake, x, key', stake', x' :| AreConfused(a, key, stake, x, a', key', stake', x') {
      if AreTellable(a, a') {
        AfterVersionBinds(a, key, stake, x, a', key', stake', x');
      }
    }
    if ZeroExtends(a, a') {
      var key, stake, x, key', stake', x' := Confusion(a, a');
    } else if ZeroExtends(a', a) {
      var key', stake', x', key, stake, x := Confusion(a', a);
      assert AreConfused(a, key, stake, x, a', key', stake', x');
    }
  }

  lemma BpParts(k: Crypto, p: Producer)
    requires IsRegular(k, p) && SerializeBp(k, p).Some?
    ensures var (version, account, key, stake) := Identity(k, p);
            && (version.Some? ==> 0 <= version.value - 1 < 256)
            && SerializeBp(k, p).value ==
                (if version.Some? then [version.value - 1] else []) + AfterVersion(account.value, key.value, stake)
  {
    hide LowBytes, SerNum;
    var (version, account, key, stake) := Identity(k, p);
    var head: Bytes := if version.Some? then [version.value - 1] else [];
    assert SerializeBp(k, p).value == head + [5, 0, 0, 0] + account.value + [0] + key.value + LowBytes(stake, 16);
    assert SerializeBp(k, p).value == head + AfterVersion(account.value, key.value, stake);
  }

  function AccountOf(k: Crypto, p: Producer): Bytes
    requires IsRegular(k, p)
  {
    k.utf8(p.accountId).value
  }

  lemma VersionBinds(v: Bytes, s: Bytes, x: Bytes, v': Bytes, s': Bytes, y: Bytes)
    requires |v| <= 1 && |v'| <= 1 && |s| >= 2 && |s'| >= 2 && s[0] == s'[0] == 5 && s[1] == s'[1] == 0
    requires v + s + x == v' + s' + y
    ensures v == v' && s + x == s' + y
  {
    var t, t' := v + s + x, v' + s' + y;
    assert t[|v|] == t'[|v'|] == 5 && t[|v| + 1] == t'[|v'| + 1] == 0;
    assert t[0] == t'[0];
    assert t[|v|..] == s + x && t'[|v'|..] == s' + y;
  }

  /** The first two bytes tell whether there is a version, and from there on everything has its place. */
  lemma BpIsPrefixFree(k: Crypto, p: Producer, x: Bytes, q: Producer, y: Bytes)
    requires IsRegular(k, p) && IsRegular(k, q) && SerializeBp(k, p).Some? && SerializeBp(k, q).Some?
    requires AreTellable(AccountOf(k, p), AccountOf(k, q))
    requires SerializeBp(k, p).value + x == SerializeBp(k, q).value + y
    ensures Identity(k, p) == Identity(k, q) && x == y
  {
    hide SerNum, SerializeBp, AfterVersion, AreTellable;
    BpParts(k, p);
    BpParts(k, q);
    var (v, a, key, stake) := Identity(k, p);
    var (v', a', key', stake') := Identity(k, q);
    var s, s' := AfterVersion(a.value, key.value, stake), AfterVersion(a'.value, key'.value, stake');
    VersionBinds(if v.Some? then [v.value - 1] else [], s, x, if v'.Some? then [v'.value - 1] else [], s', y);
    AfterVersionBinds(a.value, key.value, stake, x, a'.value, key'.value, stake', y);
  }

  /** The list is also written from the front. */
  lemma {:induction false} EachBpFront(k: Crypto, bps: seq<Producer>)
    requires bps != [] && SerializeEachBp(k, bps).Some?
    ensures SerializeBp(k, bps[0]).Some? && SerializeEachBp(k, bps[1..]).Some?
    ensures SerializeEachBp(k, bps).value == SerializeBp(k, bps[0]).value + SerializeEachBp(k, bps[1..]).value
  {
    hide SerializeBp;
    var init := bps[..|bps| - 1];
    if |bps| == 1 {
      assert bps[1..] == [];
    } else {
      EachBpFront(k, init);
      assert bps[1..][..|bps| - 2] == init[1..];
    }
  }

  /** At every position both producers are regular, and their accounts can be told apart if they differ. */
  ghost predicate AreComparable(k: Crypto, a: seq<Producer>, b: seq<Producer>) {
    forall i :: 0 <= i < |a| && i < |b| ==>
      IsRegular(k, a[i]) && IsRegular(k, b[i]) && AreTellable(AccountOf(k, a[i]), AccountOf(k, b[i]))
  }

  lemma {:induction false} EachBpBinds(k: Crypto, a: seq<Producer>, b: seq<Producer>)
    requires |a| == |b| && AreComparable(k, a, b)
    requires SerializeEachBp(k, a).Some? && SerializeEachBp(k, a) == SerializeEachBp(k, b)
    ensures forall i :: 0 <= i < |a| ==> Identity(k, a[i]) == Identity(k, b[i])
  {
    hide SerializeBp, SerializeEachBp, IsRegular, Identity, AreTellable, AccountOf;
    if a != [] {
      EachBpFront(k, a);
      EachBpFront(k, b);
      assert IsRegular(k, a[0]) && IsRegular(k, b[0]) && AreTellable(AccountOf(k, a[0]), AccountOf(k, b[0]));
      BpIsPrefixFree(k, a[0], SerializeEachBp(k, a[1..]).value, b[0], SerializeEachBp(k, b[1..]).value);
      EachBpBinds(k, a[1..], b[1..]);
      forall i | 0 <= i < |a|
        ensures Identity(k, a[i]) == Identity(k, b[i])
      {
        assert i > 0 ==> a[i] == a[1..][i - 1] && b[i] == b[1..][i - 1];
      }
    }
  }

  /** Headers with one `next_bp_hash` commit to one list of producers, up to a collision. */
  lemma NextBpHashBindsProducers(k: Crypto, a: seq<Producer>, b: seq<Producer>)
    requires IsSane(k) && SerializeBps(k, a).Some? && SerializeBps(k, b).Some? && AreComparable(k, a, b)
    requires k.b58encode(k.sha(SerializeBps(k, a).value)) == k.b58encode(k.sha(SerializeBps(k, b).value))
    ensures || Collides(k, SerializeBps(k, a).value, SerializeBps(k, b).value)
            || (|a| == |b| && forall i :: 0 <= i < |a| ==> Identity(k, a[i]) == Identity(k, b[i]))
  {
    hide SerializeEachBp, AreComparable, Identity;
    var x, y := SerializeBps(k, a).value, SerializeBps(k, b).value;
    assert k.b58decode(k.b58encode(k.sha(x))) == k.b58decode(k.b58encode(k.sha(y)));
    if x == y {
      assert x[0] == |a| && y[0] == |b|;
      assert x[4..] == SerializeEachBp(k, a).value && y[4..] == SerializeEachBp(k, b).value;
      EachBpBinds(k, a, b);
    }
  }

  lemma ZeroFreeIsTellable(a: Bytes, b: Bytes)
    requires 0 !in a && 0 !in b
    ensures AreTellable(a, b)
  {
    assert (a + [0])[|a|] == 0 && (b + [0])[|b|] == 0;
  }

  /** Accounts without a zero byte, of any lengths, are enough: every NEAR account is one of these. */
  lemma ZeroFreeListsAreComparable(k: Crypto, a: seq<Producer>, b: seq<Producer>)
    requires forall p :: p in a || p in b ==> IsRegular(k, p) && 0 !in AccountOf(k, p)
    ensures AreComparable(k, a, b)
  {
    hide IsRegular;
    forall i | 0 <= i < |a| && i < |b|
      ensures IsRegular(k, a[i]) && IsRegular(k, b[i]) && AreTellable(AccountOf(k, a[i]), AccountOf(k, b[i]))
    {
      ZeroFreeIsTellable(AccountOf(k, a[i]), AccountOf(k, b[i]));
    }
  }

  function KeyOf(k: Crypto, p: Producer): Bytes
    requires IsRegular(k, p)
  {
    k.b58decode(WithoutPrefix(p.publicKey)).value
  }

  lemma TwoBps(k: Crypto, p: Producer, q: Producer)
    requires IsRegular(k, p) && IsRegular(k, q) && p.structVersion == q.structVersion == None
    ensures SerializeBps(k, [p, q]) ==
            Some([2, 0, 0, 0] + (AfterVersion(AccountOf(k, p), KeyOf(k, p), p.stake) +
                AfterVersion(AccountOf(k, q), KeyOf(k, q), q.stake)))
  {
    hide SerNum, LowBytes, AfterVersion;
    BpParts(k, p);
    BpParts(k, q);
    hide SerializeBp;
    var x, y := AfterVersion(AccountOf(k, p), KeyOf(k, p), p.stake),
        AfterVersion(AccountOf(k, q), KeyOf(k, q), q.stake);
    assert [] + x == x && [] + y == y;
    EachBpStart(k, [p, q]);
    EachBpStep(k, [p, q], 0);
    EachBpStep(k, [p, q], 1);
    assert [p, q][..2] == [p, q];
    hide SerializeEachBp;
    assert SerializeEachBp(k, [p, q]) == Some(x + y);
    assert [2] + [0, 0, 0] == [2, 0, 0, 0];
  }

  /**
   With zero bytes in accounts two different lists of regular producers can have the same
   bytes: the first account takes over a zero byte and three bytes of its key, everything up to
   the second account moves by four bytes, and that account loses its first four.
   */
  lemma ZeroBytesUnbind(k: Crypto, p: Producer, p': Producer, q: Producer, q': Producer, w: Bytes, r: Bytes, low: Bytes)
    requires IsRegular(k, p) && IsRegular(k, p') && IsRegular(k, q) && IsRegular(k, q')
    requires p.structVersion == p'.structVersion == q.structVersion == q'.structVersion == None
    requires |w| == 3 && |r| == 28 && |low| == 16
    requires AccountOf(k, q) == AccountOf(k, p) + [0] + w && AccountOf(k, p') == [5, 0, 0, 0] + AccountOf(k, q')
    requires KeyOf(k, p) == w + [0] + r && KeyOf(k, q) == r + low[..4] && KeyOf(k, p') == KeyOf(k, q')
    requires LowBytes(p.stake, 16) == low && LowBytes(q.stake, 16) == low[4..] + [5, 0, 0, 0] && p'.stake == q'.stake
    ensures Identity(k, p) != Identity(k, q)
    ensures SerializeBps(k, [p, p']).Some? && SerializeBps(k, [p, p']) == SerializeBps(k, [q, q'])
  {
    hide LowBytes, SerNum;
    var a, b, key, last := AccountOf(k, p), AccountOf(k, q'), KeyOf(k, p'), LowBytes(p'.stake, 16);
    TwoBps(k, p, p');
    TwoBps(k, q, q');
    assert AccountOf(k, q) != a;
    var tail := [5, 0, 0, 0] + b + [0] + key + last;
    var front := [5, 0, 0, 0] + a + [0] + w + [0] + r;
    assert AfterVersion(a, KeyOf(k, p), p.stake) == front + low;
    assert AfterVersion(AccountOf(k, p'), key, p'.stake) == [5, 0, 0, 0] + tail;
    assert AfterVersion(AccountOf(k, q), KeyOf(k, q), q.stake) == front + (low[..4] + (low[4..] + [5, 0, 0, 0]));
    assert low[..4] + (low[4..] + [5, 0, 0, 0]) == low + [5, 0, 0, 0];
    assert AfterVersion(b, key, q'.stake) == tail;
    hide AfterVersion, SerializeBps;
    assert front + low + ([5, 0, 0, 0] + tail) == front + (low + [5, 0, 0, 0]) + tail;
  }

  // Two such lists

  /** Text in which every character stands for one byte, both as an account and behind the prefix of a key. */
  function TextOf(b: Bytes): string {
    seq(|b|, i requires 0 <= i < |b| => b[i] as char)
  }

  function ByteOf(c: char): Byte {
    if c as int < 256 then c as int else 0
  }

  function BytesOf(s: string): Option<Bytes> {
    if forall i :: 0 <= i < |s| ==> s[i] as int < 256
    then Some(seq(|s|, i requires 0 <= i < |s| => ByteOf(s[i])))
    else None
  }

  lemma BytesOfText(b: Bytes)
    ensures BytesOf(TextOf(b)) == Some(b)
  {
    var s := TextOf(b);
    assert forall i :: 0 <= i < |s| ==> s[i] as int == b[i] && ByteOf(s[i]) == b[i];
    assert seq(|s|, i requires 0 <= i < |s| => ByteOf(s[i])) == b;
  }

  const PLAIN: Crypto := Crypto(b => [], TextOf, BytesOf, BytesOf, (key, message, signature) => true)

  function ProducerOf(account: Bytes, key: Bytes, low: Bytes): Producer {
    Producer(TextOf(account), "ed25519:" + TextOf(key), DeNum(low), None)
  }

  lemma ProducerParts(account: Bytes, key: Bytes, low: Bytes)
    requires |key| == 32 && |low| == 16
    ensures var p := ProducerOf(account, key, low);
            && IsRegular(PLAIN, p) && AccountOf(PLAIN, p) == account && KeyOf(PLAIN, p) == key
            && LowBytes(p.stake, 16) == low
  {
    hide SerNum, LowBytes, DeNum, BytesOf, TextOf;
    var p := ProducerOf(account, key, low);
    assert WithoutPrefix(p.publicKey) == TextOf(key);
    BytesOfText(account);
    BytesOfText(key);
    NumCanonical(low);
    LowBytesKeepAll(p.stake, 16);
  }

  /** Accounts "a" and "a" with four more bytes, each with a second producer, in one list of bytes. */
  lemma TwoListsWithTheSameBytes() returns (a: seq<Producer>, b: seq<Producer>)
    ensures |a| == |b| == 2 && (forall i :: 0 <= i < 2 ==> IsRegular(PLAIN, a[i]) && IsRegular(PLAIN, b[i]))
    ensures SerializeBps(PLAIN, a).Some? && SerializeBps(PLAIN, a) == SerializeBps(PLAIN, b)
    ensures Identity(PLAIN, a[0]) != Identity(PLAIN, b[0])
  {
    hide IsRegular, AccountOf, KeyOf, LowBytes, SerializeBps, Identity;
    var w: Bytes, r: Bytes, low: Bytes := [1, 2, 3], seq(28, _ => 7), seq(16, _ => 9);
    var p := ProducerOf([97], w + [0] + r, low);
    var p' := ProducerOf([5, 0, 0, 0] + [98], r + low[..4], low);
    var q := ProducerOf([97] + [0] + w, r + low[..4], low[4..] + [5, 0, 0, 0]);
    var q' := ProducerOf([98], r + low[..4], low);
    ProducerParts([97], w + [0] + r, low);
    ProducerParts([5, 0, 0, 0] + [98], r + low[..4], low);
    ProducerParts([97] + [0] + w, r + low[..4], low[4..] + [5, 0, 0, 0]);
    ProducerParts([98], r + low[..4], low);
    ZeroBytesUnbind(PLAIN, p, p', q, q', w, r, low);
    a, b := [p, p'], [q, q'];
  }

  /** Without keys of one length even a single producer is not bound: account and key can trade a zero byte. */
  lemma LengthsAreNotWritten(k: Crypto, p: Producer, q: Producer)
    requires SerializeBp(k, p).Some? && k.utf8(q.accountId).Some? && k.b58decode(WithoutPrefix(q.publicKey)).Some?
    requires k.utf8(q.accountId).value == k.utf8(p.accountId).value + [0]
    requires k.b58decode(WithoutPrefix(p.publicKey)).value == [0] + k.b58decode(WithoutPrefix(q.publicKey)).value
    requires p.structVersion == q.structVersion && p.stake == q.stake
    ensures Identity(k, p) != Identity(k, q) && SerializeBps(k, [p]) == SerializeBps(k, [q])
        && SerializeBps(k, [p]).Some?
  {
    hide LowBytes;
    var account, key := k.utf8(p.accountId).value, k.b58decode(WithoutPrefix(q.publicKey)).value;
    var version: Bytes := if p.structVersion.Some? then [p.structVersion.value - 1] else [];
    assert SerializeBp(k, p).value == version + [5, 0, 0, 0] + account + [0] + ([0] + key) + LowBytes(p.stake, 16);
    assert SerializeBp(k, q).value == version + [5, 0, 0, 0] + (account + [0]) + [0] + key + LowBytes(p.stake, 16);
    assert SerializeBp(k, p).value == SerializeBp(k, q).value;
    assert SerializeEachBp(k, [p][..0]) == Some([]) == SerializeEachBp(k, [q][..0]);
    assert |k.utf8(p.accountId).value| != |k.utf8(q.accountId).value|;
  }

  // The whole call

  /** The block announces producers that its header commits to. */
  ghost predicate CommitsToProducers(k: Crypto, b: Block) {
    && b.nextBps.Some? && SerializeBps(k, b.nextBps.value).Some?
    && k.b58encode(k.sha(SerializeBps(k, b.nextBps.value).value)) == b.innerLite.nextBpHash
  }

  /** The block is of the last known or the next epoch, whose producers the client knows, and they approved it. */
  ghost predicate IsApprovedBlock(k: Crypto, last: InnerLite, b: Block, producers: ProducersMap) {
    && (b.innerLite.epochId == last.epochId || b.innerLite.epochId == last.nextEpochId)
    && b.innerLite.epochId in producers && HasQuorum(k, b, producers[b.innerLite.epochId])
  }

  /**
   A call accepts a block if and only if it is approved and, for a block of the next epoch,
   commits to the producers that it announces.  Then exactly these are added, for the epoch after
   it; any other call leaves the map as it was.
   */
  lemma AcceptedIffAndAdds(k: Crypto, last: InnerLite, b: Block, producers: ProducersMap, panic: bool)
    ensures var (outcome, after) := Validate(k, last, b, producers, panic);
            var isNext := b.innerLite.epochId == last.nextEpochId;
            && (outcome == Accepted <==>
                IsApprovedBlock(k, last, b, producers) && (isNext ==> CommitsToProducers(k, b)))
            && (outcome == Accepted && isNext ==> after == producers[b.innerLite.nextEpochId := b.nextBps.value])
            && (outcome != Accepted || !isNext ==> after == producers)
  {
    hide HasQuorum, SerializeBps, CheckQuorum;
    AcceptedHasQuorum(k, last, b, producers, panic);
  }

  /** The inputs on which the source raises whatever `panic` is: a hash, key, signature or byte that is not one. */
  ghost predicate IsMalformed(k: Crypto, last: InnerLite, b: Block, producers: ProducersMap) {
    var epoch := b.innerLite.epochId;
    var hash := NextBlockHash(k, b);
    || hash.None?
    || ((epoch == last.epochId || epoch == last.nextEpochId)
        && (|| epoch !in producers
            || (|b.approvals| == |producers[epoch]|
                && !AllApproved(k, b.approvals, producers[epoch], hash.value, b.innerLite.height))))
    || (IsApprovedBlock(k, last, b, producers) && epoch == last.nextEpochId
        && b.nextBps.Some? && SerializeBps(k, b.nextBps.value).None?)
  }

  /** Without `panic` a call raises exactly on malformed input; with it, it raises also where it would reject. */
  lemma RaisedIffMalformed(k: Crypto, last: InnerLite, b: Block, producers: ProducersMap)
    ensures Validate(k, last, b, producers, false).0 == Raised <==> IsMalformed(k, last, b, producers)
    ensures Validate(k, last, b, producers, true) ==
            var (outcome, after) := Validate(k, last, b, producers, false);
            (if outcome == Rejected then Raised else outcome, after)
  {
    hide NextBlockHash, AllApproved, StakeOf, SerializeBps;
  }

  // The bytes that are hashed and signed

  lemma EightAreWritten(c: Codec, values: seq<Value>, bs: seq<Bytes>)
    requires |values| == |bs| == 8
    requires forall i :: 0 <= i < 8 && i != 0 && i != 5 ==> values[i] == VBytes(bs[i]) && |bs[i]| == 32
    requires forall i :: i == 0 || i == 5 ==> values[i].VNum? && SerNum(values[i].n, 8) == Some(bs[i])
    ensures AreWritten(c, values, FieldTypes(INNER_LITE_FIELDS), bs)
  {
    hide Ser, SerNum;
    var types := FieldTypes(INNER_LITE_FIELDS);
    forall i | 0 <= i < 8
      ensures Ser(c, values[i], types[i]) == Some(bs[i])
    {
      if i == 0 || i == 5 {
        assert types[i] == UInt(64);
        UIntIs(c, values[i], 64);
      } else {
        assert types[i] == FixedBytes(32);
        FixedBytesIs(c, values[i], 32);
      }
    }
  }

  lemma FlatEight(bs: seq<Bytes>)
    requires |bs| == 8
    ensures Flat(bs) == bs[0] + bs[1] + bs[2] + bs[3] + bs[4] + bs[5] + bs[6] + bs[7]
  {
    hide Flat;
    assert bs == [bs[0], bs[1], bs[2], bs[3]] + [bs[4], bs[5], bs[6], bs[7]];
    FlatAppend([bs[0], bs[1], bs[2], bs[3]], [bs[4], bs[5], bs[6], bs[7]]);
    FlatFour(bs[0], bs[1], bs[2], bs[3]);
    FlatFour(bs[4], bs[5], bs[6], bs[7]);
    var first := bs[0] + bs[1] + bs[2] + bs[3];
    assert first + (bs[4] + bs[5] + bs[6] + bs[7]) == first + bs[4] + bs[5] + bs[6] + bs[7];
  }

  /** The inner header: eight fields in this order, two 64-bit numbers and six digests. */
  lemma InnerLiteLayout(k: Crypto, v: InnerLite, height: Bytes, timestamp: Bytes, epochId: Bytes, nextEpochId: Bytes,
                        prevStateRoot: Bytes, outcomeRoot: Bytes, nextBpHash: Bytes, blockMerkleRoot: Bytes)
    requires SerNum(v.height, 8) == Some(height) && SerNum(v.timestamp, 8) == Some(timestamp)
    requires k.b58decode(v.epochId) == Some(epochId) && k.b58decode(v.nextEpochId) == Some(nextEpochId)
    requires k.b58decode(v.prevStateRoot) == Some(prevStateRoot) && k.b58decode(v.outcomeRoot) == Some(outcomeRoot)
    requires k.b58decode(v.nextBpHash) == Some(nextBpHash) && k.b58decode(v.blockMerkleRoot) == Some(blockMerkleRoot)
    requires |epochId| == |nextEpochId| == |prevStateRoot| == |outcomeRoot| == |nextBpHash| == |blockMerkleRoot| == 32
    ensures InnerLiteMessage(k, v) == Some(height + epochId + nextEpochId + prevStateRoot + outcomeRoot + timestamp
                                           + nextBpHash + blockMerkleRoot)
  {
    hide SerNum, SetAttrs, InnerLiteObject, InnerLiteCodec, Ser, Flat;
    var c := InnerLiteCodec();
    var values := InnerLiteValues(k, v).value;
    var bs := [height, epochId, nextEpochId, prevStateRoot, outcomeRoot, timestamp, nextBpHash, blockMerkleRoot];
    EightAreWritten(c, values, bs);
    InnerLiteShape(values);
    LevelIs(c, InnerLiteObject(values), Class(INNER_LITE), Node([], values, FieldTypes(INNER_LITE_FIELDS)), bs);
    FlatEight(bs);
    assert [] + Flat(bs) == Flat(bs);
  }

  /** A block hash: the inner header's digest with the rest, then with the previous hash. */
  lemma BlockHashIs(k: Crypto, v: InnerLite, innerRestHash: string, prevHash: string,
                    msg: Bytes, rest: Bytes, prev: Bytes)
    requires InnerLiteMessage(k, v) == Some(msg)
    requires k.b58decode(innerRestHash) == Some(rest) && k.b58decode(prevHash) == Some(prev)
    ensures ComputeBlockHash(k, v, innerRestHash, prevHash) == Some(k.b58encode(k.sha(k.sha(k.sha(msg) + rest) + prev)))
  {
    hide InnerLiteMessage;
  }

  lemma {:induction false} DeZeros(b: Bytes)
    requires forall i :: 0 <= i < |b| ==> b[i] == 0
    ensures DeNum(b) == 0
  {
    if b != [] {
      DeZeros(b[1..]);
    }
  }

  lemma LowByteOnly(b: Byte)
    ensures SerNum(b, 8) == Some([b, 0, 0, 0, 0, 0, 0, 0])
  {
    var bytes: Bytes := [b, 0, 0, 0, 0, 0, 0, 0];
    assert DeNum(bytes) == b by {
      assert bytes[1..] == [0, 0, 0, 0, 0, 0, 0];
      DeZeros([0, 0, 0, 0, 0, 0, 0]);
    }
    NumCanonical(bytes);
  }

  /** An approval endorses the next block's hash for the height two above, as a 64-bit number with one byte in use. */
  lemma ApprovalLayout(nextHash: Bytes, height: int)
    ensures ApprovalMessage(nextHash, height).Some? <==> -2 <= height <= 253
    ensures ApprovalMessage(nextHash, height).Some? ==>
      SerNum(height + 2, 8).Some?
          && ApprovalMessage(nextHash, height).value == [0] + nextHash + SerNum(height + 2, 8).value
  {
    if -2 <= height <= 253 {
      LowByteOnly(height + 2);
    }
  }

  // Runs

  /** One call of the client: the last known header is the caller's choice. */
  datatype Call = Call(last: InnerLite, block: Block, panic: bool)

  ghost predicate CallAt(k: Crypto, calls: seq<Call>, maps: seq<ProducersMap>, i: nat) {
    |maps| == |calls| + 1 && i < |calls|
        && maps[i + 1] == Validate(k, calls[i].last, calls[i].block, maps[i], calls[i].panic).1
  }

  ghost predicate IsRun(k: Crypto, calls: seq<Call>, maps: seq<ProducersMap>) {
    |maps| == |calls| + 1 && forall i: nat :: i < |calls| ==> CallAt(k, calls, maps, i)
  }

  /**
   Call i added this list for the epoch: the header commits to the list, and the producers then held
   for the header's epoch approved the header.
   */
  ghost predicate Adds(k: Crypto, calls: seq<Call>, maps: seq<ProducersMap>, i: nat, epoch: string,
                       bps: seq<Producer>) {
    && |maps| == |calls| + 1 && i < |calls|
    && var b := calls[i].block;
    && b.innerLite.nextEpochId == epoch && b.nextBps == Some(bps)
    && SerializeBps(k, bps).Some? && k.b58encode(k.sha(SerializeBps(k, bps).value)) == b.innerLite.nextBpHash
    && b.innerLite.epochId in maps[i] && HasQuorum(k, b, maps[i][b.innerLite.epochId])
  }

  /**
   `chain` lists calls, each adding the producers that approve the next; the first is approved by a
   list of the initial map.
   */
  ghost predicate Linked(k: Crypto, calls: seq<Call>, maps: seq<ProducersMap>, chain: seq<nat>, before: nat,
                         epoch: string, bps: seq<Producer>)
    decreases |chain|
  {
    if chain == [] then |maps| > 0 && epoch in maps[0] && maps[0][epoch] == bps
    else
      var i := chain[|chain| - 1];
      && i < before && Adds(k, calls, maps, i, epoch, bps)
      && var approver := calls[i].block.innerLite.epochId;
      Linked(k, calls, maps, chain[..|chain| - 1], i, approver, maps[i][approver])
  }

  /** A call that is not accepted, and one within a known epoch, leave the producers unchanged. */
  lemma OnlyAcceptedBlocksAdd(k: Crypto, call: Call, producers: ProducersMap)
    ensures var (outcome, after) := Validate(k, call.last, call.block, producers, call.panic);
            after != producers ==> outcome == Accepted && call.block.innerLite.epochId == call.last.nextEpochId
  {
    hide CheckQuorum, CheckNextBps;
  }

  lemma StepAdds(k: Crypto, calls: seq<Call>, maps: seq<ProducersMap>, i: nat, epoch: string)
    requires IsRun(k, calls, maps) && i < |calls| && epoch in maps[i + 1]
    ensures (epoch in maps[i] && maps[i][epoch] == maps[i + 1][epoch])
        || Adds(k, calls, maps, i, epoch, maps[i + 1][epoch])
  {
    hide CheckQuorum, SerializeBps, HasQuorum;
    assert CallAt(k, calls, maps, i);
    if CheckQuorum(k, calls[i].last, calls[i].block, maps[i], calls[i].panic) == Accepted {
      AcceptedHasQuorum(k, calls[i].last, calls[i].block, maps[i], calls[i].panic);
    }
  }

  lemma AddsKnowsApprover(k: Crypto, calls: seq<Call>, maps: seq<ProducersMap>, i: nat, epoch: string,
                          bps: seq<Producer>)
    requires Adds(k, calls, maps, i, epoch, bps)
    ensures calls[i].block.innerLite.epochId in maps[i]
  {
  }

  /**
   Over every run, every list of producers held at any time is linked to the initial map by a finite
   chain of quorums.
   */
  lemma {:induction false} EveryListIsLinked(k: Crypto, calls: seq<Call>, maps: seq<ProducersMap>, n: nat,
                                             epoch: string) returns (chain: seq<nat>)
    requires IsRun(k, calls, maps) && n < |maps| && epoch in maps[n]
    ensures Linked(k, calls, maps, chain, n, epoch, maps[n][epoch])
    decreases n
  {
    hide Adds;
    if n == 0 {
      chain := [];
    } else {
      StepAdds(k, calls, maps, n - 1, epoch);
      if epoch in maps[n - 1] && maps[n - 1][epoch] == maps[n][epoch] {
        chain := EveryListIsLinked(k, calls, maps, n - 1, epoch);
      } else {
        var approver := calls[n - 1].block.innerLite.epochId;
        AddsKnowsApprover(k, calls, maps, n - 1, epoch, maps[n][epoch]);
        var shorter := EveryListIsLinked(k, calls, maps, n - 1, approver);
        chain := shorter + [n - 1];
        assert chain[..|chain| - 1] == shorter;
      }
    }
  }
}
