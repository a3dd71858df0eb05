/**
 What the state-sync dumper leaves behind while it runs: the persisted progress follows the dump
 shard by shard, and a cancellation that waits for its tasks has reset their counters.
 */
module StateDumpRecords {
  import opened Wrappers
  import opened StateDump
  import opened StateDumpSafety
  import opened StateDumpRuns

  // One step

  /** Uploads start with one waiting task per part, the missing parts as prepared, and nothing counted. */
  lemma UploadsStartAsPrepared(n: PartCount, s: State)
    requires Next(n, s, Prepare(StartUploads)).Some?
    ensures s.control.ListParts? || s.control.UploadHeaders?
    ensures var t, prep := Next(n, s, Prepare(StartUploads)).value, s.control.prep;
            && |t.dumps| == |s.dumps| + 1 && t == s.(control := Recording(prep.headers.Keys), dumps := t.dumps)
            && (forall i :: 0 <= i < |s.dumps| ==> t.dumps[i] == s.dumps[i])
            && var d := t.dumps[|s.dumps|];
            && d.epoch == prep.epoch && !d.canceled && d.runs.Keys == prep.missing.Keys
            && forall shard :: shard in d.runs ==> var run := d.runs[shard];
                 && run.missing == prep.missing[shard] && run.dumped == 0 && |run.tasks| == n(prep.epoch, shard)
                 && (run.sent <==> run.tasks == []) && forall p :: 0 <= p < |run.tasks| ==> run.tasks[p] == Waiting
  {
  }

  /** The persisted entry of a shard. */
  function EntryOf(s: State, shard: ShardId): Option<Progress> {
    if shard in s.progress then Some(s.progress[shard]) else None
  }

  /** What it is after a step. */
  function EntryAfter(s: State, l: Label, shard: ShardId): Option<Progress> {
    var entry := EntryOf(s, shard);
    match l
    case Environment(DropProgress(dropped)) => if shard == dropped then None else entry
    case Prepare(InitDump(epoch, tracked)) =>
      if tracked != {} && entry.Some? && entry.value.epoch != epoch then None else entry
    case Prepare(InitFail(_, dropped)) => if shard in dropped then None else entry
    case Prepare(RecordDumping(recorded)) =>
      if shard == recorded && s.dumps != [] then Some(Dumping(s.dumps[|s.dumps| - 1].epoch)) else entry
    case Loop(PartsUploaded(uploaded)) =>
      if shard == uploaded && s.current.InProgress? && s.current.id < |s.dumps|
      then Some(AllDumped(s.dumps[s.current.id].epoch)) else entry
    case _ => entry
  }

  /** Nothing else touches the progress, a crash least of all. */
  lemma ProgressChangesOnlyBy(n: PartCount, s: State, l: Label, shard: ShardId)
    requires Next(n, s, l).Some?
    ensures EntryOf(Next(n, s, l).value, shard) == EntryAfter(s, l, shard)
  {
  }

  // Over runs

  /** Recorded as in progress while the shard is awaited, and as dumped once it has reported. */
  ghost predicate IsRecorded(s: State, d: Dump, waiting: set<ShardId>) {
    forall shard :: shard in d.runs ==>
      EntryOf(s, shard) == Some(if shard in waiting then Dumping(d.epoch) else AllDumped(d.epoch))
  }

  ghost predicate AreReset(d: Dump, shards: set<ShardId>) {
    forall shard :: shard in shards && shard in d.runs ==> d.runs[shard].dumped == -1
  }

  ghost predicate HasCurrent(s: State) {
    s.current.InProgress? && s.current.id < |s.dumps|
  }

  ghost predicate RecordInv(s: State) {
    match s.control
    case Recording(todo) =>
      && s.dumps != []
      && var d := s.dumps[|s.dumps| - 1];
      forall shard :: shard in d.runs && shard !in todo ==> EntryOf(s, shard) == Some(Dumping(d.epoch))
    case Select => HasCurrent(s) ==> IsRecorded(s, s.dumps[s.current.id], s.current.waiting)
    case Refresh(_, _) => HasCurrent(s) ==> IsRecorded(s, s.dumps[s.current.id], s.current.waiting)
    case Canceling(reset, _) => HasCurrent(s) ==> AreReset(s.dumps[s.current.id], s.current.waiting - reset)
    case Draining(_) => HasCurrent(s) ==> AreReset(s.dumps[s.current.id], s.current.waiting)
    case _ => true
  }

  lemma StartRecords(n: PartCount, s: State)
    requires Inv(n, s) && Next(n, s, Prepare(StartUploads)).Some?
    ensures RecordInv(Next(n, s, Prepare(StartUploads)).value)
  {
    UploadsStartAsPrepared(n, s);
    assert PrepInv(n, s.external, s.control.prep);
    hide Next, Inv;
  }

  lemma RecordingRecords(n: PartCount, s: State, l: PrepareLabel)
    requires Inv(n, s) && RecordInv(s) && NextPrepare(n, s, l).Some? && (l.RecordDumping? || l.Recorded?)
    ensures RecordInv(NextPrepare(n, s, l).value)
  {
  }

  lemma PrepareRecords(n: PartCount, s: State, l: PrepareLabel)
    requires Inv(n, s) && RecordInv(s) && NextPrepare(n, s, l).Some?
    ensures RecordInv(NextPrepare(n, s, l).value)
  {
    hide Inv;
    if l.StartUploads? {
      StartRecords(n, s);
    } else if l.RecordDumping? || l.Recorded? {
      RecordingRecords(n, s, l);
    }
  }

  lemma RefreshWriteRecords(n: PartCount, s: State)
    requires Inv(n, s) && RecordInv(s) && NextRefreshWrite(n, s).Some?
    ensures RecordInv(NextRefreshWrite(n, s).value)
  {
  }

  lemma SelectRecords(n: PartCount, s: State, l: SelectLabel)
    requires Inv(n, s) && RecordInv(s) && NextSelect(n, s, l).Some?
    ensures RecordInv(NextSelect(n, s, l).value)
  {
    if l.RefreshWrite? {
      RefreshWriteRecords(n, s);
    }
  }

  lemma CancelRecords(n: PartCount, s: State, l: CancelLabel)
    requires Inv(n, s) && RecordInv(s) && NextCancel(n, s, l).Some?
    ensures RecordInv(NextCancel(n, s, l).value)
  {
  }

  /** The same shards are dumped for the same epoch, and a counter of -1 stays. */
  ghost predicate KeepsCounters(d: Dump, d': Dump) {
    && d'.epoch == d.epoch && d'.runs.Keys == d.runs.Keys
    && forall shard :: shard in d.runs && d.runs[shard].dumped == -1 ==> d'.runs[shard].dumped == -1
  }

  lemma TaskFrame(n: PartCount, s: State, l: Label)
    requires Next(n, s, l).Some? && (l.TaskStep? || l.SendDone?)
    ensures var t := Next(n, s, l).value;
            && t.progress == s.progress && t.control == s.control && t.current == s.current
            && |t.dumps| == |s.dumps| && forall id :: 0 <= id < |s.dumps| ==> KeepsCounters(s.dumps[id], t.dumps[id])
  {
  }

  lemma FrameRecords(s: State, t: State)
    requires RecordInv(s) && t.progress == s.progress && t.control == s.control && t.current == s.current
    requires |t.dumps| == |s.dumps| && forall id :: 0 <= id < |s.dumps| ==> KeepsCounters(s.dumps[id], t.dumps[id])
    ensures RecordInv(t)
  {
  }

  lemma TaskRecords(n: PartCount, s: State, l: Label)
    requires RecordInv(s) && Next(n, s, l).Some? && (l.TaskStep? || l.SendDone?)
    ensures RecordInv(Next(n, s, l).value)
  {
    hide Next, RecordInv, KeepsCounters;
    TaskFrame(n, s, l);
    FrameRecords(s, Next(n, s, l).value);
  }

  lemma StepRecords(n: PartCount, s: State, l: Label)
    requires Inv(n, s) && RecordInv(s) && Next(n, s, l).Some?
    ensures RecordInv(Next(n, s, l).value)
  {
    hide Inv, NextPrepare, NextSelect, NextCancel, NextTaskStep, NextSend;
    match l
    case Environment(_) =>
    case Prepare(prepare) => PrepareRecords(n, s, prepare);
    case Loop(loop) => SelectRecords(n, s, loop);
    case Cancel(cancel) => CancelRecords(n, s, cancel);
    case TaskStep(_, _, _, _) => TaskRecords(n, s, l);
    case SendDone(_, _) => TaskRecords(n, s, l);
  }

  lemma {:induction false} RunRecords(n: PartCount, states: seq<State>, labels: seq<Label>, i: nat)
    requires IsRun(n, states, labels) && i < |states|
    ensures RecordInv(states[i])
  {
    hide Next, Inv;
    if i > 0 {
      RunRecords(n, states, labels, i - 1);
      Reachable(n, states, labels, i - 1);
      assert StepAt(n, states, labels, i - 1);
      StepRecords(n, states[i - 1], labels[i - 1]);
    }
  }

  /**
   While a dump is in progress, the persisted progress of each of its shards tells where it is:
   in progress while the shard is awaited, dumped once it has reported.
   */
  lemma ProgressFollowsDump(n: PartCount, states: seq<State>, labels: seq<Label>, i: nat, shard: ShardId)
    requires IsRun(n, states, labels) && i < |states| && states[i].current.InProgress?
    requires states[i].control.Select? || states[i].control.Refresh?
    ensures states[i].current.id < |states[i].dumps|
    ensures var d := states[i].dumps[states[i].current.id];
            shard in d.runs ==>
              EntryOf(states[i], shard)
              == Some(if shard in states[i].current.waiting then Dumping(d.epoch) else AllDumped(d.epoch))
  {
    RunRecords(n, states, labels, i);
    Reachable(n, states, labels, i);
  }

  /** While a cancellation waits for its tasks, the counter of every shard that it waits for is -1. */
  lemma CountersAreReset(n: PartCount, states: seq<State>, labels: seq<Label>, i: nat, shard: ShardId)
    requires IsRun(n, states, labels) && i < |states| && states[i].control.Draining?
    ensures states[i].current.InProgress? && states[i].current.id < |states[i].dumps|
    ensures shard in states[i].current.waiting ==>
      shard in states[i].dumps[states[i].current.id].runs
          && states[i].dumps[states[i].current.id].runs[shard].dumped == -1
  {
    RunRecords(n, states, labels, i);
    Reachable(n, states, labels, i);
  }

  // Refreshes

  /** The step takes over the listing of this shard, or gives it up. */
  predicate Visits(s: State, l: Label, shard: ShardId) {
    || l == Loop(RefreshSkip(shard))
    || (l == Loop(RefreshWrite) && s.control.Refresh? && s.control.listed.Some? && s.control.listed.value.0 == shard)
  }

  lemma RefreshStep(n: PartCount, s: State, l: Label, shard: ShardId)
    requires Next(n, s, l).Some? && s.control.Refresh? && Next(n, s, l).value.control.Refresh?
    requires shard in s.control.todo && shard !in Next(n, s, l).value.control.todo
    ensures Visits(s, l, shard)
  {
  }

  lemma {:induction false} LeftAfterVisit(n: PartCount, states: seq<State>, labels: seq<Label>,
                                          i: nat, j: nat, shard: ShardId)
    requires IsRun(n, states, labels) && i < j < |states| && labels[i] == Loop(RefreshStart)
    requires forall m :: i < m <= j ==> states[m].control.Refresh?
    requires states[i].current.InProgress? && shard in states[i].current.waiting
    requires shard !in states[j].control.todo
    ensures exists m :: i < m < j && Visits(states[m], labels[m], shard)
  {
    assert StepAt(n, states, labels, i);
    assert StepAt(n, states, labels, j - 1);
    assert states[i + 1].control.todo == states[i].current.waiting;
    assert i + 1 < j;
    hide Next, Visits;
    if shard in states[j - 1].control.todo {
      RefreshStep(n, states[j - 1], labels[j - 1], shard);
    } else {
      LeftAfterVisit(n, states, labels, i, j - 1, shard);
    }
  }

  /** A refresh ends only after a visit to every shard that was awaited when it began. */
  lemma RefreshVisitsEveryShard(n: PartCount, states: seq<State>, labels: seq<Label>, i: nat, j: nat, shard: ShardId)
    requires IsRun(n, states, labels) && i < j < |labels|
    requires labels[i] == Loop(RefreshStart) && labels[j] == Loop(RefreshEnd)
    requires forall m :: i < m <= j ==> states[m].control.Refresh?
    requires states[i].current.InProgress? && shard in states[i].current.waiting
    ensures exists m :: i < m < j && Visits(states[m], labels[m], shard)
  {
    assert StepAt(n, states, labels, j);
    LeftAfterVisit(n, states, labels, i, j, shard);
  }
}
