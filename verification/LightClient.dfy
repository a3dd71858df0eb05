/**
 The light client of the Python test library: block hashes over the Borsh form of the inner
 header, the stake threshold, and the map of block producers that grows over a run.

 SHA-256, base58, UTF-8 and ed25519 are parameters; nothing is assumed about the hash beyond
 its length.  Raised exceptions are part of the outcome.
 */
module LightClient {
  import opened Wrappers
  import opened ByteStrings
  import opened Borsh

  datatype Crypto = Crypto(
    sha: Bytes -> Bytes,
    b58encode: Bytes -> string,
    b58decode: string -> Option<Bytes>,
    utf8: string -> Option<Bytes>,
    verify: (Bytes, Bytes, Bytes) -> bool)  // key, message, signature

  datatype InnerLite = InnerLite(
    height: int,
    epochId: string,
    nextEpochId: string,
    prevStateRoot: string,
    outcomeRoot: string,
    timestamp: int,
    nextBpHash: string,
    blockMerkleRoot: string)

  /** `structVersion` is the number in `validator_stake_struct_version`, when that key is present. */
  datatype Producer = Producer(accountId: string, publicKey: string, stake: nat, structVersion: Option<int>)

  datatype Block = Block(
    innerLite: InnerLite,
    innerRestHash: string,
    prevBlockHash: string,
    nextBlockInnerHash: string,
    approvals: seq<Option<string>>,
    nextBps: Option<seq<Producer>>)

  type ProducersMap = map<string, seq<Producer>>

  // Block hashes

  const INNER_LITE: string := "BlockHeaderInnerLite"

  const INNER_LITE_FIELDS: seq<Field> := [
    Field("height", UInt(64)),
    Field("epoch_id", FixedBytes(32)),
    Field("next_epoch_id", FixedBytes(32)),
    Field("prev_state_root", FixedBytes(32)),
    Field("outcome_root", FixedBytes(32)),
    Field("timestamp", UInt(64)),
    Field("next_bp_hash", FixedBytes(32)),
    Field("block_merkle_root", FixedBytes(32))
  ]

  function InnerLiteCodec(): Codec {
    Codec(map[INNER_LITE := Struct(INNER_LITE_FIELDS)], s => None, b => None)
  }

  /** The decoded fields, in the order of the schema. */
  function InnerLiteValues(k: Crypto, v: InnerLite): (r: Option<seq<Value>>)
    ensures r.Some? ==> |r.value| == 8
  {
    var epochId :- k.b58decode(v.epochId);
    var nextEpochId :- k.b58decode(v.nextEpochId);
    var prevStateRoot :- k.b58decode(v.prevStateRoot);
    var outcomeRoot :- k.b58decode(v.outcomeRoot);
    var nextBpHash :- k.b58decode(v.nextBpHash);
    var blockMerkleRoot :- k.b58decode(v.blockMerkleRoot);
    Some([VNum(v.height), VBytes(epochId), VBytes(nextEpochId), VBytes(prevStateRoot), VBytes(outcomeRoot),
          VNum(v.timestamp), VBytes(nextBpHash), VBytes(blockMerkleRoot)])
  }

  function InnerLiteObject(values: seq<Value>): Value
    requires |values| == 8
  {
    VObj(INNER_LITE, SetAttrs(map[], INNER_LITE_FIELDS, values))
  }

  function CombineHash(k: Crypto, a: Bytes, b: Bytes): Bytes {
    k.sha(a + b)
  }

  /** The bytes that are hashed for the inner header. */
  function InnerLiteMessage(k: Crypto, v: InnerLite): Option<Bytes> {
    var values :- InnerLiteValues(k, v);
    Ser(InnerLiteCodec(), InnerLiteObject(values), Class(INNER_LITE))
  }

  /** `compute_block_hash` before its final base58 encoding. */
  function RawBlockHash(k: Crypto, v: InnerLite, innerRestHash: string, prevHash: string): Option<Bytes> {
    var rest :- k.b58decode(innerRestHash);
    var prev :- k.b58decode(prevHash);
    var msg :- InnerLiteMessage(k, v);
    Some(CombineHash(k, CombineHash(k, k.sha(msg), rest), prev))
  }

  function ComputeBlockHash(k: Crypto, v: InnerLite, innerRestHash: string, prevHash: string): Option<string> {
    var h :- RawBlockHash(k, v, innerRestHash, prevHash);
    Some(k.b58encode(h))
  }

  // Approvals

  function NextBlockHash(k: Crypto, b: Block): Option<Bytes> {
    var hash :- ComputeBlockHash(k, b.innerLite, b.innerRestHash, b.prevBlockHash);
    var inner :- k.b58decode(b.nextBlockInnerHash);
    var raw :- k.b58decode(hash);
    Some(CombineHash(k, inner, raw))
  }

  /** The slice that drops the prefix "ed25519:". */
  function WithoutPrefix(s: string): string {
    if |s| >= 8 then s[8..] else ""
  }

  /** The signed message; the height must fit into one byte. */
  function ApprovalMessage(nextHash: Bytes, height: int): Option<Bytes> {
    if 0 <= height + 2 < 256 then Some([0] + nextHash + [height + 2, 0, 0, 0, 0, 0, 0, 0]) else None
  }

  /** An approval that is present is signed with the producer's key. */
  predicate IsApproved(k: Crypto, approval: string, p: Producer, nextHash: Bytes, height: int) {
    var signature := k.b58decode(WithoutPrefix(approval));
    var key := k.b58decode(WithoutPrefix(p.publicKey));
    var msg := ApprovalMessage(nextHash, height);
    signature.Some? && key.Some? && msg.Some? && k.verify(key.value, msg.value, signature.value)
  }

  predicate AllApproved(k: Crypto, approvals: seq<Option<string>>, bps: seq<Producer>, nextHash: Bytes, height: int)
    requires |approvals| == |bps|
  {
    forall i :: 0 <= i < |bps| && approvals[i].Some? ==> IsApproved(k, approvals[i].value, bps[i], nextHash, height)
  }

  /** The stake of the producers picked out by `who`. */
  function StakeOf(bps: seq<Producer>, who: nat -> bool): nat {
    if bps == [] then 0
    else StakeOf(bps[..|bps| - 1], who) + if who(|bps| - 1) then bps[|bps| - 1].stake else 0
  }

  function TotalStake(bps: seq<Producer>): nat {
    StakeOf(bps, _ => true)
  }

  function Present(approvals: seq<Option<string>>): nat -> bool {
    (i: nat) => i < |approvals| && approvals[i].Some?
  }

  // The next producers

  /** The lowest n bytes of a number, in little-endian order; higher ones are dropped. */
  function LowBytes(value: nat, n: nat): Bytes
    decreases n
  {
    if n == 0 then [] else [value % 256] + LowBytes(value / 256, n - 1)
  }

  function OneByteOf(value: int): Option<Bytes> {
    if 0 <= value < 256 then Some([value]) else None
  }

  function SerializeBp(k: Crypto, p: Producer): Option<Bytes> {
    var version :- if p.structVersion.Some? then OneByteOf(p.structVersion.value - 1) else Some([]);
    var account :- k.utf8(p.accountId);
    var key :- k.b58decode(WithoutPrefix(p.publicKey));
    Some(version + [5, 0, 0, 0] + account + [0] + key + LowBytes(p.stake, 16))
  }

  function SerializeEachBp(k: Crypto, bps: seq<Producer>): Option<Bytes> {
    if bps == [] then Some([])
    else
      var init :- SerializeEachBp(k, bps[..|bps| - 1]);
      var last :- SerializeBp(k, bps[|bps| - 1]);
      Some(init + last)
  }

  function SerializeBps(k: Crypto, bps: seq<Producer>): Option<Bytes> {
    var len :- OneByteOf(|bps|);
    var body :- SerializeEachBp(k, bps);
    Some(len + [0, 0, 0] + body)
  }

  // Validation

  datatype Outcome = Accepted | Rejected | Raised

  /** With `panic` a rejection is an assertion failure. */
  function Reject(panic: bool): Outcome {
    if panic then Raised else Rejected
  }

  /** `validate_light_client_block` up to the threshold: Accepted means that the block has its quorum. */
  function CheckQuorum(k: Crypto, last: InnerLite, b: Block, producers: ProducersMap, panic: bool): Outcome {
    var nextHash := NextBlockHash(k, b);
    if nextHash.None? then Raised
    else if b.innerLite.epochId != last.epochId && b.innerLite.epochId != last.nextEpochId then Reject(panic)
    else if b.innerLite.epochId !in producers then Raised
    else
      var bps := producers[b.innerLite.epochId];
      if |b.approvals| != |bps| then Reject(panic)
      else if !AllApproved(k, b.approvals, bps, nextHash.value, b.innerLite.height) then Raised
      else if StakeOf(bps, Present(b.approvals)) <= TotalStake(bps) * 2 / 3 then Reject(panic)
      else Accepted
  }

  /** The last part of `validate_light_client_block`: the announced producers hash to the header's `next_bp_hash`. */
  function CheckNextBps(k: Crypto, b: Block, panic: bool): Outcome {
    if b.nextBps.None? then Reject(panic)
    else
      var bytes := SerializeBps(k, b.nextBps.value);
      if bytes.None? then Raised
      else if k.b58encode(k.sha(bytes.value)) != b.innerLite.nextBpHash then Reject(panic)
      else Accepted
  }

  function Validate(k: Crypto, last: InnerLite, b: Block, producers: ProducersMap, panic: bool)
    : (Outcome, ProducersMap)
  {
    var quorum := CheckQuorum(k, last, b, producers, panic);
    if !quorum.Accepted? || b.innerLite.epochId != last.nextEpochId then (quorum, producers)
    else
      var next := CheckNextBps(k, b, panic);
      (next, if next.Accepted? then producers[b.innerLite.nextEpochId := b.nextBps.value] else producers)
  }

  /** The loop over approvals and producers: total and approved stake, unless a signature is bad. */
  method TallyApprovals(k: Crypto, approvals: seq<Option<string>>, bps: seq<Producer>, nextHash: Bytes, height: int)
    returns (r: Option<(nat, nat)>)
    requires |approvals| == |bps|
    ensures r == if AllApproved(k, approvals, bps, nextHash, height)
        then Some((TotalStake(bps), StakeOf(bps, Present(approvals)))) else None
  {
    hide IsApproved;
    var total: nat, approved: nat := 0, 0;
    for i := 0 to |bps|
      invariant total == TotalStake(bps[..i]) && approved == StakeOf(bps[..i], Present(approvals))
      invariant forall j :: 0 <= j < i && approvals[j].Some? ==>
        IsApproved(k, approvals[j].value, bps[j], nextHash, height)
    {
      assert bps[..i + 1][..i] == bps[..i];
      total := total + bps[i].stake;
      if approvals[i].None? {
        continue;
      }
      approved := approved + bps[i].stake;
      if !IsApproved(k, approvals[i].value, bps[i], nextHash, height) {
        return None;
      }
    }
    assert bps[..|bps|] == bps;
    return Some((total, approved));
  }

  lemma EachBpStart(k: Crypto, bps: seq<Producer>)
    ensures SerializeEachBp(k, bps[..0]) == Some([])
  {
  }

  lemma EachBpStep(k: Crypto, bps: seq<Producer>, i: nat)
    requires i < |bps|
    ensures var init, last := SerializeEachBp(k, bps[..i]), SerializeBp(k, bps[i]);
            SerializeEachBp(k, bps[..i + 1]) == if init.Some? && last.Some? then Some(init.value + last.value) else None
  {
    hide SerializeBp;
    assert bps[..i + 1][..i] == bps[..i];
  }

  lemma {:induction false} SerializePrefixFails(k: Crypto, bps: seq<Producer>, i: nat)
    requires i <= |bps| && SerializeEachBp(k, bps[..i]).None?
    ensures SerializeEachBp(k, bps).None?
    decreases |bps| - i
  {
    if i == |bps| {
      assert bps[..i] == bps;
    } else {
      EachBpStep(k, bps, i);
      SerializePrefixFails(k, bps, i + 1);
    }
  }

  /** The loop over the next producers, appending to what was written so far. */
  method AppendBps(k: Crypto, head: Bytes, bps: seq<Producer>) returns (r: Option<Bytes>)
    ensures var body := SerializeEachBp(k, bps); r == if body.Some? then Some(head + body.value) else None
  {
    hide SerializeBp, SerializeEachBp;
    var bytes: Bytes := head;
    EachBpStart(k, bps);
    for i := 0 to |bps|
      invariant SerializeEachBp(k, bps[..i]).Some? && bytes == head + SerializeEachBp(k, bps[..i]).value
    {
      EachBpStep(k, bps, i);
      var bp := SerializeBp(k, bps[i]);
      if bp.None? {
        SerializePrefixFails(k, bps, i + 1);
        return None;
      }
      bytes := bytes + bp.value;
    }
    assert bps[..|bps|] == bps;
    return Some(bytes);
  }

  method SerializeNextBps(k: Crypto, bps: seq<Producer>) returns (r: Option<Bytes>)
    ensures r == SerializeBps(k, bps)
  {
    hide SerializeEachBp;
    if |bps| >= 256 {
      return None;
    }
    r := AppendBps(k, [|bps|] + [0, 0, 0], bps);
  }

  /** The client: a block either updates the producers or leaves them alone. */
  class Client {
    var producers: ProducersMap

    constructor (producers: ProducersMap)
      ensures this.producers == producers
    {
      this.producers := producers;
    }

    method ValidateBlock(k: Crypto, last: InnerLite, b: Block, panic: bool) returns (outcome: Outcome)
      modifies this
      ensures (outcome, producers) == Validate(k, last, b, old(producers), panic)
    {
      hide NextBlockHash, AllApproved, SerializeBps, StakeOf;
      var nextHash := NextBlockHash(k, b);
      if nextHash.None? {
        return Raised;
      }
      var epochId := b.innerLite.epochId;
      if epochId != last.epochId && epochId != last.nextEpochId {
        return Reject(panic);
      }
      if epochId !in producers {
        return Raised;
      }
      var bps := producers[epochId];
      if |b.approvals| != |bps| {
        return Reject(panic);
      }
      var tally := TallyApprovals(k, b.approvals, bps, nextHash.value, b.innerLite.height);
      if tally.None? {
        return Raised;
      }
      var (total, approved) := tally.value;
      if approved <= total * 2 / 3 {
        return Reject(panic);
      }
      if epochId != last.nextEpochId {
        return Accepted;
      }
      if b.nextBps.None? {
        return Reject(panic);
      }
      var bytes := SerializeNextBps(k, b.nextBps.value);
      if bytes.None? {
        return Raised;
      }
      if k.b58encode(k.sha(bytes.value)) != b.innerLite.nextBpHash {
        return Reject(panic);
      }
      producers := producers[b.innerLite.nextEpochId := b.nextBps.value];
      return Accepted;
    }
  }
}
