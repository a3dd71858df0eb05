/**
 The loops inside the atomic steps of the state-sync dumper, proved to compute the functions
 that the transition system uses.
 */
module StateDumpLoops {
  import opened Wrappers
  import opened StateDump
  import opened StateDumpSafety

  /** `get_missing_part_ids_for_epoch` on the part numbers parsed from the listed file names. */
  method GetMissingPartIds(total: nat, fileParts: seq<nat>) returns (missing: set<nat>)
    ensures missing == MissingPartIds(total, set p | p in fileParts)
  {
    missing := {};
    if total == 0 {
      return;
    }
    var existing: set<nat> := {};
    for k := 0 to |fileParts|
      invariant existing == set p | p in fileParts[..k]
    {
      existing := existing + {fileParts[k]};
    }
    assert fileParts[..|fileParts|] == fileParts;
    for i := 0 to total
      invariant forall p: nat :: p in missing <==> p < i && p !in existing
    {
      if i !in existing {
        missing := missing + {i};
      }
    }
  }

  lemma WithoutTwice(prep: Prep, done: set<ShardId>, shard: ShardId)
    ensures Without(Without(prep, done), {shard}) == Without(prep, done + {shard})
  {
    assert prep.headers - done - {shard} == prep.headers - (done + {shard});
    assert prep.missing - done - {shard} == prep.missing - (done + {shard});
  }

  lemma FreshPrepAdd(n: PartCount, epoch: EpochId, tracked: set<ShardId>, shard: ShardId)
    ensures var p := FreshPrep(n, epoch, tracked);
            FreshPrep(n, epoch, tracked + {shard}) ==
            Prep(epoch, p.headers[shard := true], p.missing[shard := PartIds(n(epoch, shard))], p.senders + {shard})
  {
    var p, q := FreshPrep(n, epoch, tracked), FreshPrep(n, epoch, tracked + {shard});
    assert q.headers == p.headers[shard := true];
    assert q.missing == p.missing[shard := PartIds(n(epoch, shard))];
  }

  /** The column of the chain store that persists the progress. */
  class ChainStore {
    var progress: map<ShardId, Progress>

    constructor ()
      ensures progress == map[]
    {
      progress := map[];
    }

    method SetStateSyncDumpProgress(shard: ShardId, value: Option<Progress>)
      modifies this
      ensures progress == if value.Some? then old(progress)[shard := value.value] else old(progress) - {shard}
    {
      if value.Some? {
        progress := progress[shard := value.value];
      } else {
        progress := progress - {shard};
      }
    }

    /** `check_old_progress`; `order` is the order in which the database yields the persisted shards. */
    method CheckOldProgress(epoch: EpochId, prep: Prep, order: seq<ShardId>) returns (prep': Prep)
      requires (set s | s in order) == progress.Keys
      requires forall i, j :: 0 <= i < j < |order| ==> order[i] != order[j]
      modifies this
      ensures progress == old(progress) - StaleShards(old(progress), epoch)
      ensures prep' == Without(prep, DoneShards(old(progress), epoch))
    {
      ghost var before := progress;
      ghost var stale: set<ShardId>, done: set<ShardId> := {}, {};
      prep' := prep;
      WithoutNothing(prep);
      for k := 0 to |order|
        invariant forall s :: s in stale <==> s in order[..k] && s in StaleShards(before, epoch)
        invariant forall s :: s in done <==> s in order[..k] && s in DoneShards(before, epoch)
        invariant progress == before - stale
        invariant prep' == Without(prep, done)
      {
        var shard := order[k];
        assert shard in before && shard !in order[..k];
        if progress[shard].epoch != epoch {
          SetStateSyncDumpProgress(shard, None);
          stale := stale + {shard};
        } else if progress[shard].IsDone() {
          WithoutTwice(prep, done, shard);
          prep' := Without(prep', {shard});
          done := done + {shard};
        }
      }
      assert stale == StaleShards(before, epoch);
      assert done == DoneShards(before, epoch);
    }

    /** The writes of `new_dump`. */
    method RecordDumping(epoch: EpochId, shards: seq<ShardId>)
      modifies this
      ensures progress == old(progress) + map s | s in shards :: Dumping(epoch)
    {
      ghost var before := progress;
      for k := 0 to |shards|
        invariant progress == before + map s | s in shards[..k] :: Dumping(epoch)
      {
        SetStateSyncDumpProgress(shards[k], Some(Dumping(epoch)));
      }
      assert shards[..|shards|] == shards;
    }
  }

  /** `get_dump_state` over the shard ids of the epoch, given which of them the node cares about. */
  method GetDumpState(n: PartCount, epoch: EpochId, shardIds: seq<ShardId>, cares: ShardId -> bool)
    returns (prep: Option<Prep>)
    ensures var tracked := set s | s in shardIds && cares(s);
            prep == if tracked == {} then None else Some(FreshPrep(n, epoch, tracked))
  {
    var headers: map<ShardId, bool> := map[];
    var missing: map<ShardId, set<nat>> := map[];
    var senders: set<ShardId> := {};
    ghost var tracked: set<ShardId> := {};
    for k := 0 to |shardIds|
      invariant forall s :: s in tracked <==> s in shardIds[..k] && cares(s)
      invariant Prep(epoch, headers, missing, senders) == FreshPrep(n, epoch, tracked)
    {
      var shard := shardIds[k];
      if cares(shard) {
        FreshPrepAdd(n, epoch, tracked, shard);
        headers := headers[shard := true];
        missing := missing[shard := PartIds(n(epoch, shard))];
        senders := senders + {shard};
        tracked := tracked + {shard};
      }
    }
    assert tracked == set s | s in shardIds && cares(s);
    assert headers.Keys == senders == tracked;
    if headers.Keys == {} {
      return None;
    }
    return Some(Prep(epoch, headers, missing, senders));
  }

  /** Every step of the recorded program counters is a step of the transition system's task. */
  ghost predicate IsTaskTrace(trace: seq<Task>, missing: bool, canceled: nat -> bool, ok: nat -> bool) {
    && trace != [] && trace[0] == Waiting
    && forall i: nat :: i + 1 < |trace| ==> trace[i + 1] == NextPc(trace[i], missing, canceled(i), ok(i))
  }

  ghost predicate FailedRound(trace: seq<Task>, ok: nat -> bool, i: nat) {
    i < |trace| && trace[i] in {Obtaining, Putting} && !ok(i)
  }

  /** The last `budget` rounds of a retry loop, two steps each: the call was made and failed every time. */
  ghost predicate IsSpent(trace: seq<Task>, ok: nat -> bool, budget: nat) {
    && |trace| >= 2 * budget + 2 && trace[|trace| - 1] in {ObtainHead, UploadHead}
    && forall r: nat :: r < budget ==> FailedRound(trace, ok, |trace| - 2 * r - 2)
  }

  lemma SpentMore(trace: seq<Task>, ok: nat -> bool, k: nat, call: Task, head: Task)
    requires IsSpent(trace, ok, k) && call in {Obtaining, Putting} && head in {ObtainHead, UploadHead} && !ok(|trace|)
    ensures IsSpent(trace + [call] + [head], ok, k + 1)
  {
    var more := trace + [call] + [head];
    forall r: nat | r < k + 1
      ensures FailedRound(more, ok, |more| - 2 * r - 2)
    {
      if r > 0 {
        assert FailedRound(trace, ok, |trace| - 2 * (r - 1) - 2);
      }
    }
  }

  lemma Traced(trace: seq<Task>, missing: bool, canceled: nat -> bool, ok: nat -> bool, next: Task)
    requires IsTaskTrace(trace, missing, canceled, ok)
    requires next == NextPc(trace[|trace| - 1], missing, canceled(|trace| - 1), ok(|trace| - 1))
    ensures IsTaskTrace(trace + [next], missing, canceled, ok)
  {
  }

  /** The loop that obtains the part, from its head on. */
  method ObtainPart(start: seq<Task>, canceled: nat -> bool, ok: nat -> bool, budget: nat)
    returns (trace: seq<Task>)
    requires IsTaskTrace(start, true, canceled, ok) && |start| >= 2 && start[|start| - 1] == ObtainHead
    ensures IsTaskTrace(trace, true, canceled, ok) && |trace| >= 2
    ensures || trace[|trace| - 1] in {UploadHead, Finished(false)}
            || (trace[|trace| - 1] == ObtainHead && IsSpent(trace, ok, budget))
  {
    trace := start;
    hide IsTaskTrace;
    for k := 0 to budget
      invariant IsTaskTrace(trace, true, canceled, ok) && trace != [] && trace[|trace| - 1] == ObtainHead
      invariant IsSpent(trace, ok, k)
    {
      if canceled(|trace| - 1) {
        Traced(trace, true, canceled, ok, Finished(false));
        return trace + [Finished(false)];
      }
      Traced(trace, true, canceled, ok, Obtaining);
      ghost var before := trace;
      trace := trace + [Obtaining];
      if ok(|trace| - 1) {
        Traced(trace, true, canceled, ok, UploadHead);
        return trace + [UploadHead];
      }
      Traced(trace, true, canceled, ok, ObtainHead);
      SpentMore(before, ok, k, Obtaining, ObtainHead);
      trace := trace + [ObtainHead];
    }
  }

  /** The loop that uploads it, from its head on. */
  method PutPart(start: seq<Task>, canceled: nat -> bool, ok: nat -> bool, budget: nat)
    returns (trace: seq<Task>)
    requires IsTaskTrace(start, true, canceled, ok) && |start| >= 2 && start[|start| - 1] == UploadHead
    ensures IsTaskTrace(trace, true, canceled, ok) && |trace| >= 2
    ensures trace[|trace| - 1].Finished? || (trace[|trace| - 1] == UploadHead && IsSpent(trace, ok, budget))
  {
    trace := start;
    hide IsTaskTrace;
    for k := 0 to budget
      invariant IsTaskTrace(trace, true, canceled, ok) && trace != [] && trace[|trace| - 1] == UploadHead
      invariant IsSpent(trace, ok, k)
    {
      if canceled(|trace| - 1) {
        Traced(trace, true, canceled, ok, Finished(false));
        return trace + [Finished(false)];
      }
      Traced(trace, true, canceled, ok, Putting);
      ghost var before := trace;
      trace := trace + [Putting];
      if ok(|trace| - 1) {
        Traced(trace, true, canceled, ok, Counting);
        Traced(trace + [Counting], true, canceled, ok, Finished(true));
        return trace + [Counting] + [Finished(true)];
      }
      Traced(trace, true, canceled, ok, UploadHead);
      SpentMore(before, ok, k, Putting, UploadHead);
      trace := trace + [UploadHead];
    }
  }

  /**
   `upload_state_part` with its two retry loops.  The oracles say, for the i-th step, what
   `canceled` reads and whether the awaited call succeeds; `budget` bounds the rounds of each
   loop, which by itself may retry forever.  The steps are those of the transition system, and
   the method stops before the end only after that many rounds in which the call failed.
   */
  method UploadStatePart(missing: bool, canceled: nat -> bool, ok: nat -> bool, budget: nat)
    returns (trace: seq<Task>, returned: bool)
    ensures IsTaskTrace(trace, missing, canceled, ok)
    ensures trace != [] && (returned <==> trace[|trace| - 1].Finished?)
    ensures !missing ==> trace == [Waiting, Counting, Finished(true)]
    ensures !returned ==> IsSpent(trace, ok, budget)
    ensures budget > 0 && (forall i :: ok(i)) ==> returned
  {
    if !missing {
      return [Waiting, Counting, Finished(true)], true;
    }
    trace := ObtainPart([Waiting, ObtainHead], canceled, ok, budget);
    if trace[|trace| - 1] == UploadHead {
      trace := PutPart(trace, canceled, ok, budget);
    }
    returned := trace[|trace| - 1].Finished?;
    assert !returned && budget > 0 ==> FailedRound(trace, ok, |trace| - 2 * 0 - 2);
  }
}
