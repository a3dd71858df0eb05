/**
 The inductive invariant of the state-sync dumper, preserved by every step of every party.
 */
module StateDumpSafety {
  import opened Wrappers
  import opened StateDump

  function CountFinished(tasks: seq<Task>): (c: nat)
    ensures c <= |tasks|
  {
    if tasks == [] then 0
    else CountFinished(tasks[..|tasks| - 1]) + if tasks[|tasks| - 1].Finished? then 1 else 0
  }

  lemma {:induction false} CountUpdate(tasks: seq<Task>, p: nat, t: Task)
    requires p < |tasks|
    ensures CountFinished(tasks[p := t]) ==
            CountFinished(tasks) - (if tasks[p].Finished? then 1 else 0) + (if t.Finished? then 1 else 0)
  {
    var last := |tasks| - 1;
    if p == last {
      assert tasks[p := t][..last] == tasks[..last];
    } else {
      assert tasks[p := t][..last] == tasks[..last][p := t];
      CountUpdate(tasks[..last], p, t);
    }
  }

  lemma {:induction false} CountNone(tasks: seq<Task>)
    requires forall p :: 0 <= p < |tasks| ==> !tasks[p].Finished?
    ensures CountFinished(tasks) == 0
  {
    if tasks != [] {
      CountNone(tasks[..|tasks| - 1]);
    }
  }

  /** `parts_dumped` counts the finished tasks until the dump is canceled; afterwards it is -1 or lags behind. */
  ghost predicate CounterInv(canceled: bool, run: ShardRun) {
    && (!canceled ==> run.dumped == CountFinished(run.tasks))
    && -1 <= run.dumped <= CountFinished(run.tasks)
  }

  /** A task that claims its part is stored is right, and a task leaves early only when canceled. */
  ghost predicate TaskInv(external: set<File>, canceled: bool, file: File, t: Task) {
    && (t.Counting? || t == Finished(true) ==> file in external)
    && (t == Finished(false) ==> canceled)
  }

  /** `parts_missing` contains every part that is truly absent. */
  ghost predicate MissingInv(n: PartCount, external: set<File>, epoch: EpochId, shard: ShardId, missing: set<nat>) {
    forall p: nat :: p < n(epoch, shard) && p !in missing ==> PartFile(epoch, shard, p) in external
  }

  ghost predicate RunInv(n: PartCount, external: set<File>, canceled: bool, epoch: EpochId, shard: ShardId,
                         run: ShardRun) {
    && |run.tasks| == n(epoch, shard)
    && HeaderFile(epoch, shard) in external
    && MissingInv(n, external, epoch, shard, run.missing)
    && (forall p :: 0 <= p < |run.tasks| ==> TaskInv(external, canceled, PartFile(epoch, shard, p), run.tasks[p]))
    && (run.sent ==> AllFinished(run.tasks))
    && CounterInv(canceled, run)
  }

  ghost predicate DumpInv(n: PartCount, external: set<File>, d: Dump) {
    forall s :: s in d.runs ==> RunInv(n, external, d.canceled, d.epoch, s, d.runs[s])
  }

  ghost predicate DumpsInv(n: PartCount, s: State) {
    forall i :: 0 <= i < |s.dumps| ==> DumpInv(n, s.external, s.dumps[i])
  }

  ghost predicate ProgressInv(n: PartCount, s: State) {
    forall shard :: shard in s.progress && s.progress[shard].AllDumped? ==>
      Complete(n, s.external, s.progress[shard].epoch, shard)
  }

  /** A dump under construction: one sender per shard, headers that are not pending are stored. */
  ghost predicate PrepInv(n: PartCount, external: set<File>, prep: Prep) {
    && prep.headers.Keys == prep.missing.Keys == prep.senders
    && prep.senders != {}
    && (forall s :: s in prep.headers && !prep.headers[s] ==> HeaderFile(prep.epoch, s) in external)
    && (forall s :: s in prep.missing ==> MissingInv(n, external, prep.epoch, s, prep.missing[s]))
  }

  /** `current` is the newest dump, and a shard is taken out of `waiting` only after its sender was used. */
  ghost predicate Tracks(s: State) {
    && s.current.InProgress?
    && s.current.id + 1 == |s.dumps|
    && s.current.waiting <= s.dumps[s.current.id].runs.Keys
    && forall shard :: shard in s.dumps[s.current.id].runs && shard !in s.current.waiting ==>
        s.dumps[s.current.id].runs[shard].sent
  }

  ghost predicate Running(s: State) {
    Tracks(s) && !s.dumps[s.current.id].canceled && s.current.waiting != {}
  }

  ghost predicate Canceled(s: State) {
    Tracks(s) && s.dumps[s.current.id].canceled
  }

  ghost predicate ControlInv(n: PartCount, s: State) {
    match s.control
    case CheckHeaders(prep) => PrepInv(n, s.external, prep)
    case UploadHeaders(prep, _) => PrepInv(n, s.external, prep)
    case ListParts(prep) => PrepInv(n, s.external, prep) && HeadersStored(prep)
    case Recording(todo) =>
      && s.dumps != [] && !s.dumps[|s.dumps| - 1].canceled && s.dumps[|s.dumps| - 1].runs.Keys != {}
      && todo <= s.dumps[|s.dumps| - 1].runs.Keys
    case Select => if s.current.InProgress? then Running(s) else s.current.Done?
    case Refresh(todo, listed) =>
      && Running(s) && todo <= s.current.waiting
      && (listed.Some? ==> listed.value.0 in todo)
      && (listed.Some? ==> ListedParts(s.external, s.dumps[s.current.id].epoch, listed.value.0, listed.value.1))
    case Canceling(reset, _) => Canceled(s) && reset <= s.current.waiting
    case Draining(_) => Canceled(s)
    case _ => true
  }

  /** Only the newest dump, or a dump left behind by an error, may still have live tasks. */
  ghost predicate QuietInv(s: State) {
    && (forall i :: i in s.leaked ==> i < |s.dumps|)
    && forall i :: 0 <= i < |s.dumps| ==> i in s.leaked || (IsActive(s) && i == |s.dumps| - 1) || Quiescent(s.dumps[i])
  }

  ghost predicate Inv(n: PartCount, s: State) {
    ProgressInv(n, s) && DumpsInv(n, s) && ControlInv(n, s) && QuietInv(s)
  }

  /** The node starts with no tasks and a progress column that tells the truth about the storage. */
  ghost predicate Init(n: PartCount, s: State) {
    s.control == Boot && s.current == NoDump && s.dumps == [] && s.leaked == {} && ProgressInv(n, s)
  }

  // Facts about one dump

  lemma DumpInvGrows(n: PartCount, external: set<File>, more: set<File>, d: Dump)
    requires DumpInv(n, external, d) && external <= more
    ensures DumpInv(n, more, d)
  {
    forall s | s in d.runs
      ensures RunInv(n, more, d.canceled, d.epoch, s, d.runs[s])
    {
      assert RunInv(n, external, d.canceled, d.epoch, s, d.runs[s]);
    }
  }

  lemma PrepInvGrows(n: PartCount, external: set<File>, more: set<File>, prep: Prep)
    requires PrepInv(n, external, prep) && external <= more
    ensures PrepInv(n, more, prep)
  {
    forall s | s in prep.missing
      ensures MissingInv(n, more, prep.epoch, s, prep.missing[s])
    {
      assert MissingInv(n, external, prep.epoch, s, prep.missing[s]);
    }
  }

  /** The external storage may grow under the feet of every party. */
  lemma InvGrows(n: PartCount, s: State, more: set<File>)
    requires Inv(n, s) && s.external <= more
    ensures Inv(n, s.(external := more))
  {
    var t := s.(external := more);
    forall i | 0 <= i < |t.dumps|
      ensures DumpInv(n, more, t.dumps[i])
    {
      DumpInvGrows(n, s.external, more, s.dumps[i]);
    }
    assert ProgressInv(n, t) by {
      forall shard | shard in t.progress && t.progress[shard].AllDumped?
        ensures Complete(n, more, t.progress[shard].epoch, shard)
      {
        assert Complete(n, s.external, s.progress[shard].epoch, shard);
      }
    }
    if s.control.CheckHeaders? || s.control.UploadHeaders? || s.control.ListParts? {
      PrepInvGrows(n, s.external, more, s.control.prep);
    }
    assert IsActive(t) == IsActive(s);
  }

  /** A shard whose sender was used before any cancellation is stored completely. */
  lemma SentIsComplete(n: PartCount, external: set<File>, epoch: EpochId, shard: ShardId, run: ShardRun)
    requires RunInv(n, external, false, epoch, shard, run) && run.sent
    ensures Complete(n, external, epoch, shard)
  {
    forall p | 0 <= p < n(epoch, shard)
      ensures PartFile(epoch, shard, p) in external
    {
      assert TaskInv(external, false, PartFile(epoch, shard, p), run.tasks[p]);
      assert run.tasks[p].Finished?;
    }
  }

  lemma StartRunInv(n: PartCount, external: set<File>, epoch: EpochId, shard: ShardId, missing: set<nat>)
    requires HeaderFile(epoch, shard) in external && MissingInv(n, external, epoch, shard, missing)
    ensures RunInv(n, external, false, epoch, shard, StartRun(n, epoch, shard, missing))
  {
    CountNone(StartRun(n, epoch, shard, missing).tasks);
  }

  lemma StepRunInv(n: PartCount, external: set<File>, canceled: bool, epoch: EpochId, shard: ShardId, run: ShardRun,
                   part: nat, ok: bool)
    requires RunInv(n, external, canceled, epoch, shard, run)
    requires part < |run.tasks| && !run.tasks[part].Finished?
    ensures var more := if run.tasks[part].Putting? && ok then external + {PartFile(epoch, shard, part)} else external;
            RunInv(n, more, canceled, epoch, shard, StepRun(run, part, canceled, ok))
  {
    var more := if run.tasks[part].Putting? && ok then external + {PartFile(epoch, shard, part)} else external;
    var next := StepRun(run, part, canceled, ok);
    CountUpdate(run.tasks, part, NextTask(run, part, canceled, ok));
    assert TaskInv(external, canceled, PartFile(epoch, shard, part), run.tasks[part]);
    forall p | 0 <= p < |next.tasks|
      ensures TaskInv(more, canceled, PartFile(epoch, shard, p), next.tasks[p])
    {
      assert TaskInv(external, canceled, PartFile(epoch, shard, p), run.tasks[p]);
    }
    assert MissingInv(n, more, epoch, shard, next.missing);
    assert !run.sent;
  }

  /** Replacing one run by another that keeps the shared facts keeps the invariant of all dumps. */
  lemma SetRunDumps(n: PartCount, s: State, id: nat, shard: ShardId, run: ShardRun)
    requires DumpsInv(n, s) && id < |s.dumps| && shard in s.dumps[id].runs
    requires RunInv(n, s.external, s.dumps[id].canceled, s.dumps[id].epoch, shard, run)
    ensures DumpsInv(n, SetRun(s, id, shard, run))
  {
    var t := SetRun(s, id, shard, run);
    forall i | 0 <= i < |t.dumps|
      ensures DumpInv(n, t.external, t.dumps[i])
    {
      assert DumpInv(n, s.external, s.dumps[i]);
    }
  }

  /** The rest of the invariant survives when no finished task is revived and no sender is taken back. */
  lemma SetRunRest(n: PartCount, s: State, id: nat, shard: ShardId, run: ShardRun)
    requires ControlInv(n, s) && QuietInv(s) && id < |s.dumps| && shard in s.dumps[id].runs
    requires AllFinished(s.dumps[id].runs[shard].tasks) ==> AllFinished(run.tasks)
    requires s.dumps[id].runs[shard].sent ==> run.sent
    ensures var t := SetRun(s, id, shard, run); ControlInv(n, t) && QuietInv(t)
  {
    var t := SetRun(s, id, shard, run);
    assert IsActive(t) == IsActive(s);
    assert t.dumps[id].runs.Keys == s.dumps[id].runs.Keys;
    forall i | 0 <= i < |t.dumps| && Quiescent(s.dumps[i])
      ensures Quiescent(t.dumps[i])
    {
    }
    assert s.control.Recording? ==> ControlInv(n, t);
  }

  // Steps of the tasks

  lemma TaskStepInv(n: PartCount, s: State, id: nat, shard: ShardId, part: nat, ok: bool)
    requires Inv(n, s) && Live(s, id, shard, part)
    ensures Inv(n, TakeTaskStep(s, id, shard, part, ok))
  {
    var d := s.dumps[id];
    var run := d.runs[shard];
    var t := TakeTaskStep(s, id, shard, part, ok);
    InvGrows(n, s, t.external);
    var g := s.(external := t.external);
    assert DumpInv(n, s.external, d);
    StepRunInv(n, s.external, d.canceled, d.epoch, shard, run, part, ok);
    var next := StepRun(run, part, d.canceled, ok);
    assert t == SetRun(g, id, shard, next);
    SetRunDumps(n, g, id, shard, next);
    assert !AllFinished(run.tasks);
    SetRunRest(n, g, id, shard, next);
  }

  lemma SendDoneInv(n: PartCount, s: State, id: nat, shard: ShardId)
    requires Inv(n, s) && NextSend(s, id, shard).Some?
    ensures Inv(n, NextSend(s, id, shard).value)
  {
    assert DumpInv(n, s.external, s.dumps[id]);
    var run := s.dumps[id].runs[shard].(sent := true);
    SetRunDumps(n, s, id, shard, run);
    SetRunRest(n, s, id, shard, run);
  }

  // Steps of the control loop

  lemma EnvironmentInv(n: PartCount, s: State, l: EnvironmentLabel)
    requires Inv(n, s) && NextEnvironment(s, l).Some?
    ensures Inv(n, NextEnvironment(s, l).value)
  {
    match l
    case ForeignUpload(file) => InvGrows(n, s, s.external + {file});
    case Crash =>
    case Restart =>
    case DropProgress(shard) =>
  }

  /** All parts of a fresh dump are missing, and shards are dropped together with their senders. */
  lemma FreshPrepInv(n: PartCount, external: set<File>, epoch: EpochId, tracked: set<ShardId>, done: set<ShardId>)
    requires tracked - done != {}
    ensures PrepInv(n, external, Without(FreshPrep(n, epoch, tracked), done))
  {
    var prep := Without(FreshPrep(n, epoch, tracked), done);
    assert prep.headers.Keys == tracked - done;
    assert prep.missing.Keys == tracked - done;
  }

  lemma AfterInitInv(n: PartCount, s: State, epoch: EpochId, tracked: set<ShardId>)
    requires Inv(n, s) && s.control.Boot?
    ensures Inv(n, AfterInit(n, s, epoch, tracked))
  {
    if tracked != {} {
      var done := DoneShards(s.progress, epoch);
      var prep := Without(FreshPrep(n, epoch, tracked), done);
      assert prep.headers.Keys == tracked - done;
      if tracked - done != {} {
        FreshPrepInv(n, s.external, epoch, tracked, done);
      }
      var t := s.(progress := s.progress - StaleShards(s.progress, epoch));
      assert ProgressInv(n, t);
    }
  }

  lemma StartUploadsInv(n: PartCount, s: State, prep: Prep)
    requires Inv(n, s) && PrepInv(n, s.external, prep) && HeadersStored(prep) && !IsActive(s)
    ensures Inv(n, AfterStart(n, s, prep))
  {
    var t := AfterStart(n, s, prep);
    var d := StartDump(n, prep);
    forall shard | shard in d.runs
      ensures RunInv(n, s.external, false, d.epoch, shard, d.runs[shard])
    {
      StartRunInv(n, s.external, prep.epoch, shard, prep.missing[shard]);
    }
    assert d.runs.Keys == prep.missing.Keys;
    assert DumpInv(n, t.external, d);
  }

  lemma HeaderPutInv(n: PartCount, s: State, shard: ShardId)
    requires Inv(n, s) && NextPrepare(n, s, HeaderPut(shard)).Some?
    ensures Inv(n, NextPrepare(n, s, HeaderPut(shard)).value)
  {
    var t := NextPrepare(n, s, HeaderPut(shard)).value;
    InvGrows(n, s, t.external);
    assert t.control.prep.headers.Keys == s.control.prep.headers.Keys;
  }

  lemma InitListedInv(n: PartCount, s: State, shard: ShardId, listed: set<nat>)
    requires Inv(n, s) && NextPrepare(n, s, InitListed(shard, listed)).Some?
    ensures Inv(n, NextPrepare(n, s, InitListed(shard, listed)).value)
  {
    var t := NextPrepare(n, s, InitListed(shard, listed)).value;
    assert t.control.prep.missing.Keys == s.control.prep.missing.Keys;
  }

  lemma HeaderFoundInv(n: PartCount, s: State, shard: ShardId)
    requires Inv(n, s) && NextPrepare(n, s, HeaderFound(shard)).Some?
    ensures Inv(n, NextPrepare(n, s, HeaderFound(shard)).value)
  {
    assert NextPrepare(n, s, HeaderFound(shard)).value.control.prep.headers.Keys == s.control.prep.headers.Keys;
  }

  lemma RecordedInv(n: PartCount, s: State)
    requires Inv(n, s) && NextPrepare(n, s, Recorded).Some?
    ensures Inv(n, NextPrepare(n, s, Recorded).value)
  {
  }

  lemma PrepareInv(n: PartCount, s: State, l: PrepareLabel)
    requires Inv(n, s) && NextPrepare(n, s, l).Some?
    ensures Inv(n, NextPrepare(n, s, l).value)
  {
    match l
    case InitDump(epoch, tracked) => AfterInitInv(n, s, epoch, tracked);
    case InitFail(_, _) =>
    case HeaderFound(shard) => HeaderFoundInv(n, s, shard);
    case HeadersChecked =>
    case HeaderPut(shard) => HeaderPutInv(n, s, shard);
    case HeadersUploaded =>
    case InitListed(shard, listed) => InitListedInv(n, s, shard, listed);
    case StartUploads => StartUploadsInv(n, s, s.control.prep);
    case RecordDumping(shard) =>
    case Recorded => RecordedInv(n, s);
  }

  lemma ReceiveInv(n: PartCount, s: State, shard: ShardId)
    requires Inv(n, s) && s.control.Draining? && Ready(s, shard)
    ensures Inv(n, Receive(s, shard))
  {
  }

  /** Once nothing is waited for, every task has returned. */
  lemma CollectedIsQuiescent(n: PartCount, s: State)
    requires DumpsInv(n, s) && Tracks(s) && s.current.waiting == {}
    ensures Quiescent(s.dumps[s.current.id])
  {
    assert DumpInv(n, s.external, s.dumps[s.current.id]);
  }

  lemma PartsUploadedInv(n: PartCount, s: State, shard: ShardId)
    requires Inv(n, s) && s.control.Select? && Ready(s, shard)
    ensures Inv(n, AfterPartsUploaded(s, shard))
    ensures Complete(n, s.external, s.dumps[s.current.id].epoch, shard)
  {
    var d := s.dumps[s.current.id];
    assert DumpInv(n, s.external, d);
    SentIsComplete(n, s.external, d.epoch, shard, d.runs[shard]);
    var t := Receive(s, shard).(progress := s.progress[shard := AllDumped(d.epoch)]);
    if t.current.waiting == {} {
      CollectedIsQuiescent(n, t);
    }
  }

  lemma AfterCancelInv(n: PartCount, s: State, next: Option<EpochId>)
    requires Inv(n, s) && s.control.Select? && s.current.InProgress?
    ensures Inv(n, AfterCancel(s, next))
  {
    var t := AfterCancel(s, next);
    forall i | 0 <= i < |t.dumps|
      ensures DumpInv(n, t.external, t.dumps[i])
    {
      assert DumpInv(n, s.external, s.dumps[i]);
    }
  }

  lemma RefreshWriteInv(n: PartCount, s: State)
    requires Inv(n, s) && NextRefreshWrite(n, s).Some?
    ensures Inv(n, NextRefreshWrite(n, s).value)
  {
    var (shard, listed) := s.control.listed.value;
    var d := s.dumps[s.current.id];
    assert DumpInv(n, s.external, d);
    var run := d.runs[shard].(missing := MissingPartIds(n(d.epoch, shard), listed));
    SetRunDumps(n, s, s.current.id, shard, run);
    SetRunRest(n, s, s.current.id, shard, run);
  }

  /** Only the program counter moves, within a running dump. */
  lemma MoveInv(n: PartCount, s: State, t: State)
    requires Inv(n, s) && t == s.(control := t.control) && (t.control.Select? || t.control.Refresh?) && ControlInv(n, t)
    requires s.control.Select? || s.control.Refresh?
    ensures Inv(n, t)
  {
  }

  /** An error exit: the running dump is recorded as left behind. */
  lemma FailInv(n: PartCount, s: State, t: State)
    requires Inv(n, s) && t == s.(current := t.current) && (s.current.InProgress? <==> t.current.InProgress?)
    ensures Inv(n, Fail(t))
  {
    assert IsActive(t) == IsActive(s);
  }

  lemma SelectInv(n: PartCount, s: State, l: SelectLabel)
    requires Inv(n, s) && NextSelect(n, s, l).Some?
    ensures Inv(n, NextSelect(n, s, l).value)
  {
    match l
    case PartsUploaded(shard) => PartsUploadedInv(n, s, shard);
    case PartsUploadedFail(shard) => FailInv(n, s, Receive(s, shard));
    case RefreshStart => MoveInv(n, s, NextSelect(n, s, l).value);
    case RefreshList(shard, listed) => MoveInv(n, s, NextSelect(n, s, l).value);
    case RefreshWrite => RefreshWriteInv(n, s);
    case RefreshSkip(shard) => MoveInv(n, s, NextSelect(n, s, l).value);
    case RefreshEnd => MoveInv(n, s, NextSelect(n, s, l).value);
    case HeadChanged(epoch) => if s.current.InProgress? { AfterCancelInv(n, s, Some(epoch)); }
    case StopLoop => if s.current.InProgress? { AfterCancelInv(n, s, None); }
    case LoopFail => FailInv(n, s, s);
  }

  lemma ResetCounterInv(n: PartCount, s: State, shard: ShardId)
    requires Inv(n, s) && NextCancel(n, s, ResetCounter(shard)).Some?
    ensures Inv(n, NextCancel(n, s, ResetCounter(shard)).value)
  {
    assert DumpInv(n, s.external, s.dumps[s.current.id]);
    var run := s.dumps[s.current.id].runs[shard].(dumped := -1);
    SetRunDumps(n, s, s.current.id, shard, run);
    SetRunRest(n, s, s.current.id, shard, run);
  }

  lemma DrainedInv(n: PartCount, s: State)
    requires Inv(n, s) && NextCancel(n, s, Drained).Some?
    ensures Inv(n, NextCancel(n, s, Drained).value)
  {
    CollectedIsQuiescent(n, s);
  }

  lemma WithoutNothing(prep: Prep)
    ensures Without(prep, {}) == prep
  {
  }

  lemma NewDumpInv(n: PartCount, s: State, tracked: set<ShardId>)
    requires Inv(n, s) && NextCancel(n, s, NewDump(tracked)).Some?
    ensures Inv(n, NextCancel(n, s, NewDump(tracked)).value)
  {
    if tracked != {} {
      FreshPrepInv(n, s.external, s.control.epoch, tracked, {});
      WithoutNothing(FreshPrep(n, s.control.epoch, tracked));
    }
  }

  lemma CancelInv(n: PartCount, s: State, l: CancelLabel)
    requires Inv(n, s) && NextCancel(n, s, l).Some?
    ensures Inv(n, NextCancel(n, s, l).value)
  {
    match l
    case ResetCounter(shard) => ResetCounterInv(n, s, shard);
    case ResetsDone =>
    case Drain(shard) => ReceiveInv(n, s, shard);
    case Drained => DrainedInv(n, s);
    case NewDump(tracked) => NewDumpInv(n, s, tracked);
  }

  /** Every step of every party keeps the invariant. */
  lemma StepInv(n: PartCount, s: State, l: Label)
    requires Inv(n, s) && Next(n, s, l).Some?
    ensures Inv(n, Next(n, s, l).value)
  {
    match l
    case Environment(env) => EnvironmentInv(n, s, env);
    case Prepare(prepare) => PrepareInv(n, s, prepare);
    case Loop(loop) => SelectInv(n, s, loop);
    case Cancel(cancel) => CancelInv(n, s, cancel);
    case TaskStep(id, shard, part, ok) => TaskStepInv(n, s, id, shard, part, ok);
    case SendDone(id, shard) => SendDoneInv(n, s, id, shard);
  }
}
