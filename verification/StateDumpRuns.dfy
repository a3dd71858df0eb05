/**
 What the state-sync dumper guarantees over whole runs: every interleaving of the control
 loop, the upload tasks, other machines, crashes and restarts.
 */
module StateDumpRuns {
  import opened Wrappers
  import opened StateDump
  import opened StateDumpSafety

  ghost predicate StepAt(n: PartCount, states: seq<State>, labels: seq<Label>, i: nat) {
    |states| == |labels| + 1 && i < |labels| && Next(n, states[i], labels[i]) == Some(states[i + 1])
  }

  ghost predicate IsRun(n: PartCount, states: seq<State>, labels: seq<Label>) {
    && |states| == |labels| + 1
    && Init(n, states[0])
    && forall i: nat :: i < |labels| ==> StepAt(n, states, labels, i)
  }

  lemma {:induction false} Reachable(n: PartCount, states: seq<State>, labels: seq<Label>, i: nat)
    requires IsRun(n, states, labels) && i < |states|
    ensures Inv(n, states[i])
  {
    if i > 0 {
      Reachable(n, states, labels, i - 1);
      assert StepAt(n, states, labels, i - 1);
      StepInv(n, states[i - 1], labels[i - 1]);
    }
  }

  lemma {:induction false} StorageGrows(n: PartCount, states: seq<State>, labels: seq<Label>, i: nat, j: nat)
    requires IsRun(n, states, labels) && i <= j < |states|
    ensures states[i].external <= states[j].external
  {
    if i < j {
      StorageGrows(n, states, labels, i, j - 1);
      assert StepAt(n, states, labels, j - 1);
    }
  }

  /** Recorded as dumped means dumped: header and all parts are stored from that moment on. */
  lemma AllDumpedIsComplete(n: PartCount, states: seq<State>, labels: seq<Label>, i: nat, j: nat, shard: ShardId)
    requires IsRun(n, states, labels) && i <= j < |states|
    requires shard in states[i].progress && states[i].progress[shard].AllDumped?
    ensures Complete(n, states[j].external, states[i].progress[shard].epoch, shard)
  {
    Reachable(n, states, labels, i);
    StorageGrows(n, states, labels, i, j);
  }

  /** A restart leaves out a tracked shard only if it is stored completely, or was persisted as skipped. */
  lemma RestartSkipsOnlyComplete(n: PartCount, states: seq<State>, labels: seq<Label>, i: nat, epoch: EpochId,
                                 tracked: set<ShardId>, shard: ShardId)
    requires IsRun(n, states, labels) && i < |labels|
    requires labels[i] == Prepare(InitDump(epoch, tracked)) && shard in tracked
    ensures
      || (states[i + 1].control.CheckHeaders? && shard in states[i + 1].control.prep.senders)
      || Complete(n, states[i].external, epoch, shard)
      || (shard in states[i].progress && states[i].progress[shard] == Skipped(epoch))
  {
    Reachable(n, states, labels, i);
    assert StepAt(n, states, labels, i);
    var done := DoneShards(states[i].progress, epoch);
    if shard !in done {
      var prep := Without(FreshPrep(n, epoch, tracked), done);
      assert shard in prep.headers.Keys;
    }
  }

  /** When the loop reports an epoch as done, every shard of its dump is stored completely. */
  lemma FinishedDumpIsComplete(n: PartCount, states: seq<State>, labels: seq<Label>, i: nat, shard: ShardId)
    requires IsRun(n, states, labels) && i < |labels|
    requires labels[i].Loop? && labels[i].loop.PartsUploaded? && states[i + 1].current.Done?
    requires states[i].current.InProgress? && states[i].current.id < |states[i].dumps|
    requires shard in states[i].dumps[states[i].current.id].runs
    ensures Complete(n, states[i].external, states[i + 1].current.epoch, shard)
  {
    var s := states[i];
    Reachable(n, states, labels, i);
    assert StepAt(n, states, labels, i);
    var d := s.dumps[s.current.id];
    assert DumpInv(n, s.external, d);
    assert s.current.waiting - {labels[i].loop.shard} == {};
    assert shard !in s.current.waiting - {labels[i].loop.shard};
    assert d.runs[shard].sent;
    SentIsComplete(n, s.external, d.epoch, shard, d.runs[shard]);
  }

  /** The select loop never awaits an empty set of shards, and each awaited shard has a task group that can answer. */
  lemma SelectAwaitsSomething(n: PartCount, states: seq<State>, labels: seq<Label>, i: nat)
    requires IsRun(n, states, labels) && i < |states|
    requires states[i].control.Select? && states[i].current.InProgress?
    ensures states[i].current.waiting != {}
    ensures states[i].current.id < |states[i].dumps|
    ensures states[i].current.waiting <= states[i].dumps[states[i].current.id].runs.Keys
  {
    Reachable(n, states, labels, i);
  }

  /**
   Whatever is awaited can still be delivered: the answer is there, or can be sent, or a task of the
   shard can take a step.
   */
  lemma AwaitedShardIsNotStuck(n: PartCount, states: seq<State>, labels: seq<Label>, i: nat, shard: ShardId)
    requires IsRun(n, states, labels) && i < |states|
    requires states[i].control.Select? || states[i].control.Draining?
    requires states[i].current.InProgress? && shard in states[i].current.waiting
    ensures || Ready(states[i], shard)
            || Next(n, states[i], SendDone(states[i].current.id, shard)).Some?
            || exists part: nat :: states[i].current.id < |states[i].dumps|
                && part < n(states[i].dumps[states[i].current.id].epoch, shard)
                                   && Next(n, states[i], TaskStep(states[i].current.id, shard, part, true)).Some?
  {
    var s, id := states[i], states[i].current.id;
    Reachable(n, states, labels, i);
    assert DumpInv(n, s.external, s.dumps[id]);
    var run := s.dumps[id].runs[shard];
    if !run.sent && !AllFinished(run.tasks) {
      var part: nat :| part < |run.tasks| && !run.tasks[part].Finished?;
      assert Live(s, id, shard, part);
      assert Next(n, s, TaskStep(id, shard, part, true)).Some?;
    }
  }

  // Error exits

  predicate IsFailure(l: Label) {
    (l.Prepare? && l.prepare.InitFail?) || (l.Loop? && (l.loop.PartsUploadedFail? || l.loop.LoopFail?))
  }

  lemma {:induction false} NothingLeaks(n: PartCount, states: seq<State>, labels: seq<Label>, i: nat, j: nat)
    requires IsRun(n, states, labels) && i <= j < |states|
    requires states[i].leaked == {}
    requires forall k :: i <= k < j ==> !IsFailure(labels[k])
    ensures states[j].leaked == {}
  {
    if i < j {
      NothingLeaks(n, states, labels, i, j - 1);
      assert StepAt(n, states, labels, j - 1);
      assert !IsFailure(labels[j - 1]);
    }
  }

  /** Whenever uploads start, there is one sender for each shard of the dump, and there is a shard. */
  lemma UploadsStartWithSenders(n: PartCount, states: seq<State>, labels: seq<Label>, j: nat)
    requires IsRun(n, states, labels) && j < |labels| && labels[j] == Prepare(StartUploads)
    ensures states[j].control.ListParts? || states[j].control.UploadHeaders?
    ensures states[j].control.prep.senders == states[j].control.prep.headers.Keys != {}
  {
    Reachable(n, states, labels, j);
    assert StepAt(n, states, labels, j);
  }

  ghost predicate NothingIsLive(s: State) {
    forall id, shard, part :: !Live(s, id, shard, part)
  }

  /** The dumps left behind by errors have no live task. */
  ghost predicate LeakedAreQuiet(s: State) {
    forall id :: id in s.leaked && id < |s.dumps| ==> Quiescent(s.dumps[id])
  }

  /** A dump is quiet once none of its tasks is live. */
  lemma NothingLiveIsQuiet(s: State)
    requires NothingIsLive(s)
    ensures forall id :: 0 <= id < |s.dumps| ==> Quiescent(s.dumps[id])
  {
    forall id: nat, shard: ShardId, part: nat | HasTask(s, id, shard, part)
      ensures s.dumps[id].runs[shard].tasks[part].Finished?
    {
      assert !Live(s, id, shard, part);
    }
  }

  /** In general the live tasks at that point are exactly those of dumps left behind by an error. */
  lemma LiveTasksAreLeaked(n: PartCount, states: seq<State>, labels: seq<Label>, j: nat)
    requires IsRun(n, states, labels) && j < |labels| && labels[j] == Prepare(StartUploads)
    ensures NothingIsLive(states[j]) <==> LeakedAreQuiet(states[j])
  {
    var s := states[j];
    Reachable(n, states, labels, j);
    assert StepAt(n, states, labels, j);
    if LeakedAreQuiet(s) {
      forall id: nat, shard: ShardId, part: nat | HasTask(s, id, shard, part)
        ensures TaskAt(s, id, shard, part).Finished?
      {
        assert Quiescent(s.dumps[id]);
      }
    }
    if NothingIsLive(s) {
      NothingLiveIsQuiet(s);
    }
  }

  /** When uploads start, no task of an earlier dump is live, unless a control loop of this process failed after i. */
  lemma UploadsStartClean(n: PartCount, states: seq<State>, labels: seq<Label>, i: nat, j: nat)
    requires IsRun(n, states, labels) && i <= j < |labels|
    requires states[i].leaked == {} && forall k :: i <= k < j ==> !IsFailure(labels[k])
    requires labels[j] == Prepare(StartUploads)
    ensures NothingIsLive(states[j])
  {
    NothingLeaks(n, states, labels, i, j);
    LiveTasksAreLeaked(n, states, labels, j);
  }

  lemma Extended(n: PartCount, states: seq<State>, labels: seq<Label>, l: Label, t: State)
    returns (states': seq<State>, labels': seq<Label>)
    requires IsRun(n, states, labels) && Next(n, states[|labels|], l) == Some(t)
    ensures states' == states + [t] && labels' == labels + [l]
    ensures IsRun(n, states', labels') && states'[|labels'|] == t
  {
    states', labels' := states + [t], labels + [l];
    forall i: nat | i < |labels'|
      ensures StepAt(n, states', labels', i)
    {
      if i < |labels| {
        assert StepAt(n, states, labels, i);
      }
    }
  }

  lemma {:induction false} AboveAll(epochs: set<EpochId>) returns (epoch: EpochId)
    ensures forall e :: e in epochs ==> e < epoch
  {
    if epochs == {} {
      epoch := 0;
    } else {
      var e :| e in epochs;
      var rest := AboveAll(epochs - {e});
      epoch := if rest > e then rest else e + 1;
      forall e' | e' in epochs
        ensures e' < epoch
      {
        assert e' == e || e' in epochs - {e};
      }
    }
  }

  /** An epoch that no shard has progress for. */
  lemma FreshEpoch(progress: map<ShardId, Progress>) returns (epoch: EpochId)
    ensures forall shard :: shard in progress ==> progress[shard].epoch != epoch
  {
    var epochs := set shard | shard in progress :: progress[shard].epoch;
    epoch := AboveAll(epochs);
    forall shard | shard in progress
      ensures progress[shard].epoch < epoch
    {
      assert progress[shard].epoch in epochs;
    }
  }

  /** The first step of a dump of shard 0 in a new epoch. */
  lemma InitStep(n: PartCount, s: State, epoch: EpochId) returns (prep: Prep, t: State)
    requires s.control == Boot && forall shard :: shard in s.progress ==> s.progress[shard].epoch != epoch
    ensures Next(n, s, Prepare(InitDump(epoch, {0}))) == Some(t)
    ensures t == s.(control := CheckHeaders(prep), progress := t.progress)
    ensures prep.epoch == epoch && prep.headers == map[0 := true] && prep.missing.Keys == {0}
  {
    prep := FreshPrep(n, epoch, {0});
    assert DoneShards(s.progress, epoch) == {};
    WithoutNothing(prep);
    assert prep.headers == map[0 := true];
    t := s.(control := CheckHeaders(prep), progress := s.progress - StaleShards(s.progress, epoch));
  }

  /** The three steps that upload its header. */
  lemma HeaderSteps(n: PartCount, s: State, prep: Prep) returns (s2: State, s3: State, s4: State)
    requires s.control == CheckHeaders(prep) && prep.headers == map[0 := true]
    ensures Next(n, s, Prepare(HeadersChecked)) == Some(s2)
    ensures Next(n, s2, Prepare(HeaderPut(0))) == Some(s3)
    ensures Next(n, s3, Prepare(HeadersUploaded)) == Some(s4)
    ensures s4 == s.(control := s4.control, external := s4.external)
    ensures s4.control.ListParts? && s4.control.prep == prep.(headers := map[0 := false])
  {
    var uploaded := prep.(headers := map[0 := false]);
    assert prep.headers[0 := false] == uploaded.headers;
    s2 := s.(control := UploadHeaders(prep, true));
    s3 := s.(external := s.external + {HeaderFile(prep.epoch, 0)}, control := UploadHeaders(uploaded, true));
    s4 := s3.(control := ListParts(uploaded));
  }

  /** A restarted process can get to the point where uploads start, with all earlier dumps as they were. */
  lemma PrepareOne(n: PartCount, states: seq<State>, labels: seq<Label>, epoch: EpochId)
    returns (states': seq<State>, labels': seq<Label>)
    requires IsRun(n, states, labels) && states[|labels|].control == Boot
    requires var progress := states[|labels|].progress;
             forall shard :: shard in progress ==> progress[shard].epoch != epoch
    ensures IsRun(n, states', labels') && labels <= labels' && states <= states'
    ensures forall k :: |labels| <= k < |labels'| ==> !IsFailure(labels'[k])
    ensures states'[|labels'|].control.ListParts? && states'[|labels'|].dumps == states[|labels|].dumps
    ensures states'[|labels'|].control.prep.epoch == epoch && states'[|labels'|].control.prep.missing.Keys == {0}
  {
    hide Next, StepAt, Init;
    var prep, s1 := InitStep(n, states[|labels|], epoch);
    var s2, s3, s4 := HeaderSteps(n, s1, prep);
    states', labels' := Extended(n, states, labels, Prepare(InitDump(epoch, {0})), s1);
    states', labels' := Extended(n, states', labels', Prepare(HeadersChecked), s2);
    states', labels' := Extended(n, states', labels', Prepare(HeaderPut(0)), s3);
    states', labels' := Extended(n, states', labels', Prepare(HeadersUploaded), s4);
  }

  /**
   The escape clause of UploadsStartClean is needed: every error exit with a live task can be
   followed by a second start in the same process whose uploads start while that task is live.
   */
  lemma ErrorExitLeavesTasks(n: PartCount, states: seq<State>, labels: seq<Label>, id: nat, shard: ShardId, part: nat)
    returns (states': seq<State>, labels': seq<Label>)
    requires IsRun(n, states, labels) && states[|labels|].control.Failed? && Live(states[|labels|], id, shard, part)
    ensures IsRun(n, states', labels') && labels < labels' && states < states'
    ensures forall k :: |labels| <= k < |labels'| ==> !IsFailure(labels'[k])
    ensures labels'[|labels'| - 1] == Prepare(StartUploads) && Live(states'[|labels'| - 1], id, shard, part)
  {
    hide StepAt, Init;
    var s := states[|labels|].(control := Boot, current := NoDump);
    states', labels' := Extended(n, states, labels, Environment(Restart), s);
    var epoch := FreshEpoch(s.progress);
    states', labels' := PrepareOne(n, states', labels', epoch);
    var t := states'[|labels'|];
    states', labels' := Extended(n, states', labels', Prepare(StartUploads), AfterStart(n, t, t.control.prep));
  }

  /** There are such exits: recording the progress of a first dump fails right after its tasks were started. */
  lemma SomeErrorExitHasTasks(n: PartCount) returns (states: seq<State>, labels: seq<Label>)
    requires n(0, 0) > 0
    ensures IsRun(n, states, labels) && states[|labels|].control.Failed? && Live(states[|labels|], 0, 0, 0)
  {
    states, labels := [State({}, map[], Boot, NoDump, [], {})], [];
    states, labels := PrepareOne(n, states, labels, 0);
    hide StepAt, Init;
    var s := states[|labels|];
    var t := AfterStart(n, s, s.control.prep);
    assert 0 in t.dumps[0].runs;
    states, labels := Extended(n, states, labels, Prepare(StartUploads), t);
    states, labels := Extended(n, states, labels, Loop(LoopFail), Fail(t));
  }

  lemma QuietEnvironment(n: PartCount, s: State, l: EnvironmentLabel)
    requires LeakedAreQuiet(s) && NextEnvironment(s, l).Some?
    ensures LeakedAreQuiet(NextEnvironment(s, l).value)
  {
  }

  lemma QuietPrepare(n: PartCount, s: State, l: PrepareLabel)
    requires LeakedAreQuiet(s) && (forall id :: id in s.leaked ==> id < |s.dumps|)
    requires NextPrepare(n, s, l).Some? && !l.InitFail?
    ensures LeakedAreQuiet(NextPrepare(n, s, l).value)
  {
  }

  lemma QuietSelect(n: PartCount, s: State, l: SelectLabel)
    requires LeakedAreQuiet(s) && NextSelect(n, s, l).Some? && !l.PartsUploadedFail? && !l.LoopFail?
    ensures LeakedAreQuiet(NextSelect(n, s, l).value)
  {
    match l
    case RefreshWrite =>
    case _ =>
  }

  lemma QuietCancel(n: PartCount, s: State, l: CancelLabel)
    requires LeakedAreQuiet(s) && NextCancel(n, s, l).Some?
    ensures LeakedAreQuiet(NextCancel(n, s, l).value)
  {
  }

  lemma QuietTask(s: State, id: nat, shard: ShardId, part: nat, ok: bool)
    requires LeakedAreQuiet(s) && Live(s, id, shard, part)
    ensures LeakedAreQuiet(TakeTaskStep(s, id, shard, part, ok))
  {
    assert id !in s.leaked;
  }

  /** A dump left behind that has wound down stays so, until a loop fails again. */
  lemma QuietStep(n: PartCount, s: State, l: Label)
    requires Inv(n, s) && LeakedAreQuiet(s) && Next(n, s, l).Some? && !IsFailure(l)
    ensures LeakedAreQuiet(Next(n, s, l).value)
  {
    match l
    case Environment(env) => QuietEnvironment(n, s, env);
    case Prepare(prepare) => QuietPrepare(n, s, prepare);
    case Loop(loop) => QuietSelect(n, s, loop);
    case Cancel(cancel) => QuietCancel(n, s, cancel);
    case TaskStep(id, shard, part, ok) => QuietTask(s, id, shard, part, ok);
    case SendDone(_, _) =>
  }

  lemma {:induction false} StaysQuiet(n: PartCount, states: seq<State>, labels: seq<Label>, i: nat, j: nat)
    requires IsRun(n, states, labels) && i <= j < |states| && LeakedAreQuiet(states[i])
    requires forall k :: i <= k < j ==> !IsFailure(labels[k])
    ensures LeakedAreQuiet(states[j])
  {
    hide Inv, LeakedAreQuiet;
    if i < j {
      StaysQuiet(n, states, labels, i, j - 1);
      Reachable(n, states, labels, j - 1);
      assert StepAt(n, states, labels, j - 1) && !IsFailure(labels[j - 1]);
      QuietStep(n, states[j - 1], labels[j - 1]);
    }
  }

  /** The run goes on to a start of uploads, without another failure. */
  ghost predicate GoesOnToStart(n: PartCount, states: seq<State>, labels: seq<Label>, states': seq<State>,
                                labels': seq<Label>) {
    && IsRun(n, states', labels') && |states| == |labels| + 1 && labels < labels' && states < states'
    && (forall k :: |labels| <= k < |labels'| ==> !IsFailure(labels'[k]))
    && labels'[|labels'| - 1] == Prepare(StartUploads)
  }

  ghost predicate NextStartsAreClean(n: PartCount, states: seq<State>, labels: seq<Label>) {
    forall states', labels' :: GoesOnToStart(n, states, labels, states', labels') ==>
      |labels'| - 1 < |states'| && NothingIsLive(states'[|labels'| - 1])
  }

  /**
   After an error exit: all later starts of uploads, up to the next failure, find no old task
   live, if and only if no task was live when the loop returned its error.
   */
  lemma NextStartsAreCleanIff(n: PartCount, states: seq<State>, labels: seq<Label>)
    requires IsRun(n, states, labels) && states[|labels|].control.Failed?
    ensures NextStartsAreClean(n, states, labels) <==> NothingIsLive(states[|labels|])
  {
    var s := states[|labels|];
    if NothingIsLive(s) {
      NothingLiveIsQuiet(s);
      forall states', labels' | GoesOnToStart(n, states, labels, states', labels')
        ensures NothingIsLive(states'[|labels'| - 1])
      {
        StaysQuiet(n, states', labels', |labels|, |labels'| - 1);
        LiveTasksAreLeaked(n, states', labels', |labels'| - 1);
      }
    } else {
      var id: nat, shard: ShardId, part: nat :| Live(s, id, shard, part);
      var states', labels' := ErrorExitLeavesTasks(n, states, labels, id, shard, part);
      assert GoesOnToStart(n, states, labels, states', labels');
    }
  }

  // Cancellation

  ghost predicate Settled(s: State, t: State, id: nat, shard: ShardId) {
    && id < |s.dumps| && id < |t.dumps| && shard in s.dumps[id].runs && shard in t.dumps[id].runs
    && (s.dumps[id].canceled ==> t.dumps[id].canceled)
    && (s.dumps[id].runs[shard].dumped == -1 ==> t.dumps[id].runs[shard].dumped == -1)
  }

  /** The upload task is untouched, its dump stays canceled if it was, and a counter at -1 stays there. */
  ghost predicate SameTask(s: State, t: State, id: nat, shard: ShardId, part: nat) {
    && HasTask(s, id, shard, part) && HasTask(t, id, shard, part)
    && TaskAt(s, id, shard, part) == TaskAt(t, id, shard, part)
    && Settled(s, t, id, shard)
  }

  lemma EnvironmentFrame(s: State, l: EnvironmentLabel, id: nat, shard: ShardId, part: nat)
    requires HasTask(s, id, shard, part) && NextEnvironment(s, l).Some? && l != Crash
    ensures SameTask(s, NextEnvironment(s, l).value, id, shard, part)
  {
  }

  lemma PrepareFrame(n: PartCount, s: State, l: PrepareLabel, id: nat, shard: ShardId, part: nat)
    requires HasTask(s, id, shard, part) && NextPrepare(n, s, l).Some?
    ensures SameTask(s, NextPrepare(n, s, l).value, id, shard, part)
  {
  }

  lemma SelectFrame(n: PartCount, s: State, l: SelectLabel, id: nat, shard: ShardId, part: nat)
    requires HasTask(s, id, shard, part) && NextSelect(n, s, l).Some?
    ensures SameTask(s, NextSelect(n, s, l).value, id, shard, part)
  {
    match l
    case RefreshWrite =>
    case _ =>
  }

  lemma CancelFrame(n: PartCount, s: State, l: CancelLabel, id: nat, shard: ShardId, part: nat)
    requires HasTask(s, id, shard, part) && NextCancel(n, s, l).Some?
    ensures SameTask(s, NextCancel(n, s, l).value, id, shard, part)
  {
  }

  predicate IsStepOf(l: Label, id: nat, shard: ShardId, part: nat) {
    l.TaskStep? && l.id == id && l.shard == shard && l.part == part
  }

  /** What one step does to one task of a dump, when the process does not die. */
  lemma StepFrame(n: PartCount, s: State, l: Label, id: nat, shard: ShardId, part: nat)
    requires HasTask(s, id, shard, part) && Next(n, s, l).Some? && l != Environment(Crash)
    ensures var t := Next(n, s, l).value;
            if IsStepOf(l, id, shard, part)
            then && Settled(s, t, id, shard) && HasTask(t, id, shard, part) && !TaskAt(s, id, shard, part).Finished?
                 && TaskAt(t, id, shard, part) == NextTask(s.dumps[id].runs[shard], part, s.dumps[id].canceled, l.ok)
            else SameTask(s, t, id, shard, part)
  {
    match l
    case Environment(env) => EnvironmentFrame(s, env, id, shard, part);
    case Prepare(prepare) => PrepareFrame(n, s, prepare, id, shard, part);
    case Loop(loop) => SelectFrame(n, s, loop, id, shard, part);
    case Cancel(cancel) => CancelFrame(n, s, cancel, id, shard, part);
    case TaskStep(_, _, _, _) =>
    case SendDone(_, _) =>
  }

  /** Steps a task of a canceled dump can still take. */
  function StepsLeft(t: Task): nat {
    match t
    case Waiting => 2
    case Obtaining => 2
    case Putting => 2
    case ObtainHead => 1
    case UploadHead => 1
    case Counting => 1
    case Finished(_) => 0
  }

  lemma FrameAt(n: PartCount, states: seq<State>, labels: seq<Label>, k: nat, id: nat, shard: ShardId, part: nat)
    requires IsRun(n, states, labels) && k < |labels| && labels[k] != Environment(Crash)
    requires HasTask(states[k], id, shard, part) && states[k].dumps[id].canceled
    ensures Settled(states[k], states[k + 1], id, shard) && HasTask(states[k + 1], id, shard, part)
    ensures var before, after := TaskAt(states[k], id, shard, part), TaskAt(states[k + 1], id, shard, part);
            if IsStepOf(labels[k], id, shard, part)
            then StepsLeft(after) + 1 == StepsLeft(before) && !after.Putting?
            else after == before
  {
    assert StepAt(n, states, labels, k);
    StepFrame(n, states[k], labels[k], id, shard, part);
  }

  function CountSteps(labels: seq<Label>, id: nat, shard: ShardId, part: nat): nat {
    if labels == [] then 0
    else CountSteps(labels[..|labels| - 1], id, shard, part) + if IsStepOf(labels[|labels| - 1], id, shard, part)
        then 1 else 0
  }

  /** The `put_file` calls of one task that complete, well or badly, between two points of a run. */
  ghost function CountPuts(states: seq<State>, labels: seq<Label>, i: nat, j: nat, id: nat, shard: ShardId,
                           part: nat): nat
    requires i <= j <= |labels| < |states|
    decreases j
  {
    if i == j then 0
    else CountPuts(states, labels, i, j - 1, id, shard, part)
         + if IsStepOf(labels[j - 1], id, shard, part) && HasTask(states[j - 1], id, shard, part)
             && TaskAt(states[j - 1], id, shard, part).Putting? then 1 else 0
  }

  /**
   From the cancellation at i on, as long as the process lives: the dump stays canceled, a
   counter at -1 stays there, and its upload task runs out of steps whatever its calls return, with
   at most one more completed `put_file`, namely one that was in flight.
   */
  lemma {:induction false} CanceledTaskWindsDown(n: PartCount, states: seq<State>, labels: seq<Label>, i: nat, j: nat,
                                                 id: nat, shard: ShardId, part: nat)
    requires IsRun(n, states, labels) && i <= j < |states|
    requires HasTask(states[i], id, shard, part) && states[i].dumps[id].canceled
    requires forall k :: i <= k < j ==> labels[k] != Environment(Crash)
    ensures HasTask(states[j], id, shard, part) && states[j].dumps[id].canceled
    ensures states[i].dumps[id].runs[shard].dumped == -1 ==> states[j].dumps[id].runs[shard].dumped == -1
    ensures CountSteps(labels[i..j], id, shard, part) + StepsLeft(TaskAt(states[j], id, shard, part)) ==
        StepsLeft(TaskAt(states[i], id, shard, part))
    ensures CountPuts(states, labels, i, j, id, shard, part) +
        (if TaskAt(states[j], id, shard, part).Putting? then 1 else 0)
         == if TaskAt(states[i], id, shard, part).Putting? then 1 else 0
  {
    if i < j {
      CanceledTaskWindsDown(n, states, labels, i, j - 1, id, shard, part);
      FrameAt(n, states, labels, j - 1, id, shard, part);
      assert labels[i..j][..j - i - 1] == labels[i..j - 1];
      assert labels[i..j][j - i - 1] == labels[j - 1];
    }
  }

  /** `parts_dumped` is the number of finished tasks, and so at most the number of parts, until the dump is canceled. */
  lemma CounterCountsFinishedTasks(n: PartCount, states: seq<State>, labels: seq<Label>, i: nat, id: nat,
                                   shard: ShardId)
    requires IsRun(n, states, labels) && i < |states|
    requires id < |states[i].dumps| && shard in states[i].dumps[id].runs
    ensures var d := states[i].dumps[id]; var run := d.runs[shard];
            && (!d.canceled ==> run.dumped == CountFinished(run.tasks))
            && -1 <= run.dumped <= CountFinished(run.tasks) <= n(d.epoch, shard)
  {
    Reachable(n, states, labels, i);
    assert DumpInv(n, states[i].external, states[i].dumps[id]);
  }
}
