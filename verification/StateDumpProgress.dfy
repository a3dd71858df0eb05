/**
 No reachable state of the state-sync dumper is a dead end: whenever shards are awaited, steps
 of their own tasks, all succeeding, complete the dump, or let a canceled dump drain.
 */
module StateDumpProgress {
  import opened Wrappers
  import opened StateDump
  import opened StateDumpSafety
  import opened StateDumpRuns

  /** Steps a task takes at most when every call succeeds. */
  function Weight(t: Task): nat {
    match t
    case Waiting => 6
    case ObtainHead => 5
    case Obtaining => 4
    case UploadHead => 3
    case Putting => 2
    case Counting => 1
    case Finished(_) => 0
  }

  function TotalWeight(tasks: seq<Task>): nat {
    if tasks == [] then 0 else TotalWeight(tasks[..|tasks| - 1]) + Weight(tasks[|tasks| - 1])
  }

  lemma {:induction false} WeightUpdate(tasks: seq<Task>, p: nat, t: Task)
    requires p < |tasks|
    ensures TotalWeight(tasks[p := t]) + Weight(tasks[p]) == TotalWeight(tasks) + Weight(t)
  {
    var n := |tasks| - 1;
    if p < n {
      WeightUpdate(tasks[..n], p, t);
      assert tasks[p := t][..n] == tasks[..n][p := t];
    } else {
      assert tasks[p := t][..n] == tasks[..n];
    }
  }

  function WorkLeft(run: ShardRun): nat {
    TotalWeight(run.tasks) + if run.sent then 0 else 1
  }

  lemma StepRunWorks(run: ShardRun, part: nat, canceled: bool)
    requires part < |run.tasks| && !run.tasks[part].Finished?
    ensures WorkLeft(StepRun(run, part, canceled, true)) < WorkLeft(run)
  {
    WeightUpdate(run.tasks, part, NextTask(run, part, canceled, true));
  }

  /** The loop awaits shards of the dump in `dumps`. */
  ghost predicate Awaits(s: State) {
    (s.control.Select? || s.control.Draining?) && s.current.InProgress? && s.current.id < |s.dumps|
    && s.current.waiting <= s.dumps[s.current.id].runs.Keys
  }

  /** The loop is where it was, awaiting the same shards of the same dump. */
  ghost predicate SameLoop(s: State, t: State) {
    Awaits(s) && Awaits(t) && t.control == s.control && t.current == s.current && t.progress == s.progress
    && t.dumps[t.current.id].epoch == s.dumps[s.current.id].epoch
  }

  lemma ReachableAwaits(n: PartCount, states: seq<State>, labels: seq<Label>)
    requires IsRun(n, states, labels)
    requires states[|labels|].control.Select? || states[|labels|].control.Draining?
    requires states[|labels|].current.InProgress?
    ensures Awaits(states[|labels|])
    ensures states[|labels|].control.Select? ==> states[|labels|].current.waiting != {}
  {
    Reachable(n, states, labels, |labels|);
  }

  lemma SendWorks(run: ShardRun)
    requires !run.sent
    ensures WorkLeft(run.(sent := true)) < WorkLeft(run)
  {
  }

  /** A step of the shard's own that brings its answer closer. */
  lemma WorkStep(n: PartCount, s: State, shard: ShardId) returns (l: Label, t: State)
    requires Awaits(s) && shard in s.current.waiting && !s.dumps[s.current.id].runs[shard].sent
    ensures Next(n, s, l) == Some(t) && SameLoop(s, t) && (l.TaskStep? || l.SendDone?)
    ensures WorkLeft(t.dumps[t.current.id].runs[shard]) < WorkLeft(s.dumps[s.current.id].runs[shard])
  {
    hide WorkLeft;
    var id := s.current.id;
    var run := s.dumps[id].runs[shard];
    if AllFinished(run.tasks) {
      l := SendDone(id, shard);
      t := NextSend(s, id, shard).value;
      SendWorks(run);
    } else {
      var part: nat :| part < |run.tasks| && !run.tasks[part].Finished?;
      l := TaskStep(id, shard, part, true);
      t := TakeTaskStep(s, id, shard, part, true);
      StepRunWorks(run, part, s.dumps[id].canceled);
    }
  }

  /** Any awaited shard can be brought to answer by its own tasks. */
  lemma {:induction false} BringReady(n: PartCount, states: seq<State>, labels: seq<Label>, shard: ShardId)
    returns (states': seq<State>, labels': seq<Label>)
    requires IsRun(n, states, labels) && Awaits(states[|labels|]) && shard in states[|labels|].current.waiting
    ensures IsRun(n, states', labels') && labels <= labels' && states <= states'
    ensures forall k :: |labels| <= k < |labels'| ==> labels'[k].TaskStep? || labels'[k].SendDone?
    ensures SameLoop(states[|labels|], states'[|labels'|]) && Ready(states'[|labels'|], shard)
    decreases WorkLeft(states[|labels|].dumps[states[|labels|].current.id].runs[shard])
  {
    hide StepAt, Init, WorkLeft, Next;
    var s := states[|labels|];
    if s.dumps[s.current.id].runs[shard].sent {
      states', labels' := states, labels;
    } else {
      var l, t := WorkStep(n, s, shard);
      var states1, labels1 := Extended(n, states, labels, l, t);
      states', labels' := BringReady(n, states1, labels1, shard);
    }
  }

  /** The progress with this entry for every one of the shards. */
  ghost function RecordedAs(progress: map<ShardId, Progress>, todo: set<ShardId>, p: Progress): map<ShardId, Progress> {
    progress + map shard | shard in todo :: p
  }

  lemma RecordedOneMore(progress: map<ShardId, Progress>, todo: set<ShardId>, shard: ShardId, p: Progress)
    requires shard in todo
    ensures RecordedAs(progress[shard := p], todo - {shard}, p) == RecordedAs(progress, todo, p)
  {
  }

  lemma {:induction false} SelectCanFinish(n: PartCount, states: seq<State>, labels: seq<Label>)
    returns (states': seq<State>, labels': seq<Label>)
    requires IsRun(n, states, labels)
    requires states[|labels|].control.Select? && states[|labels|].current.InProgress?
    ensures Awaits(states[|labels|])
    ensures IsRun(n, states', labels') && labels <= labels' && states <= states'
    ensures var s, t := states[|labels|], states'[|labels'|]; var epoch := s.dumps[s.current.id].epoch;
            && t.current == Done(epoch)
            && t.progress == RecordedAs(s.progress, s.current.waiting, AllDumped(epoch))
    decreases |states[|labels|].current.waiting|
  {
    hide StepAt, Init;
    ReachableAwaits(n, states, labels);
    var s := states[|labels|];
    var shard :| shard in s.current.waiting;
    states', labels' := BringReady(n, states, labels, shard);
    var t := states'[|labels'|];
    var u := AfterPartsUploaded(t, shard);
    states', labels' := Extended(n, states', labels', Loop(PartsUploaded(shard)), u);
    var epoch, rest := s.dumps[s.current.id].epoch, s.current.waiting - {shard};
    assert u.progress == s.progress[shard := AllDumped(epoch)];
    if rest != {} {
      states', labels' := SelectCanFinish(n, states', labels');
    }
    RecordedOneMore(s.progress, s.current.waiting, shard, AllDumped(epoch));
    assert rest == {} ==> RecordedAs(u.progress, rest, AllDumped(epoch)) == u.progress;
  }

  // Back to the select loop

  /** A dump is running: its shards are being recorded, or the loop selects, or it refreshes the missing parts. */
  ghost predicate IsRunning(s: State) {
    s.control.Recording? || ((s.control.Select? || s.control.Refresh?) && s.current.InProgress?)
  }

  /** The shards of the running dump that have not been recorded as dumped. */
  ghost function Awaited(s: State): set<ShardId>
    requires IsRunning(s) && s.dumps != []
  {
    if s.control.Recording? then s.dumps[|s.dumps| - 1].runs.Keys else s.current.waiting
  }

  ghost function Pick(shards: set<ShardId>): (shard: ShardId)
    requires shards != {}
    ensures shard in shards
  {
    var shard :| shard in shards;
    shard
  }

  /** The newest dump and the progress are the same. */
  ghost predicate SameDump(s: State, t: State) {
    s.dumps != [] && |t.dumps| == |s.dumps| && t.dumps[|t.dumps| - 1].epoch == s.dumps[|s.dumps| - 1].epoch
  }

  /** Whether a listing is at hand or not, one shard can be taken off the list. */
  lemma RefreshStep(n: PartCount, s: State) returns (l: SelectLabel, t: State)
    requires s.control.Refresh? && ControlInv(n, s) && s.control.todo != {}
    ensures Next(n, s, Loop(l)) == Some(t) && SameDump(s, t) && t.current == s.current && t.progress == s.progress
    ensures t.control.Refresh? && t.control.todo < s.control.todo
  {
    if s.control.listed.Some? {
      l := RefreshWrite;
      t := NextRefreshWrite(n, s).value;
      assert s.control.listed.value.0 in s.control.todo && s.control.listed.value.0 !in t.control.todo;
    } else {
      var shard := Pick(s.control.todo);
      l := RefreshSkip(shard);
      t := s.(control := Refresh(s.control.todo - {shard}, None));
      assert shard !in t.control.todo;
    }
  }

  lemma EndRefresh(n: PartCount, s: State)
    requires s.control.Refresh? && s.control.todo == {}
    ensures Next(n, s, Loop(RefreshEnd)) == Some(s.(control := Select))
  {
  }

  /** The steps between a refresh and the select loop change neither progress nor what is awaited. */
  lemma {:induction false} RefreshCanEnd(n: PartCount, states: seq<State>, labels: seq<Label>)
    returns (states': seq<State>, labels': seq<Label>)
    requires IsRun(n, states, labels) && states[|labels|].control.Refresh?
    ensures IsRun(n, states', labels') && labels <= labels' && states <= states'
    ensures var s, t := states[|labels|], states'[|labels'|];
            SameDump(s, t) && t.control.Select? && t.current == s.current && t.current.InProgress?
                && t.progress == s.progress
    decreases states[|labels|].control.todo
  {
    Reachable(n, states, labels, |labels|);
    hide StepAt, Init;
    var s := states[|labels|];
    assert ControlInv(n, s) && s.current.InProgress? && s.dumps != [];
    hide Inv, ControlInv, Next;
    if s.control.todo == {} {
      EndRefresh(n, s);
      states', labels' := Extended(n, states, labels, Loop(RefreshEnd), s.(control := Select));
    } else {
      var l, t := RefreshStep(n, s);
      states', labels' := Extended(n, states, labels, Loop(l), t);
      states', labels' := RefreshCanEnd(n, states', labels');
    }
  }

  lemma RecordStep(n: PartCount, s: State) returns (shard: ShardId, t: State)
    requires s.control.Recording? && s.control.todo != {} && s.dumps != []
    ensures shard in s.control.todo && Next(n, s, Prepare(RecordDumping(shard))) == Some(t)
    ensures t.control == Recording(s.control.todo - {shard}) && t.dumps == s.dumps
    ensures t.progress == s.progress[shard := Dumping(s.dumps[|s.dumps| - 1].epoch)]
  {
    shard := Pick(s.control.todo);
    t := NextPrepare(n, s, RecordDumping(shard)).value;
  }

  lemma EndRecording(n: PartCount, s: State) returns (t: State)
    requires s.control.Recording? && s.control.todo == {} && s.dumps != []
    ensures Next(n, s, Prepare(Recorded)) == Some(t)
    ensures t == s.(control := Select, current := InProgress(|s.dumps| - 1, s.dumps[|s.dumps| - 1].runs.Keys))
    ensures t.progress == RecordedAs(s.progress, {}, Dumping(s.dumps[|s.dumps| - 1].epoch))
  {
    t := NextPrepare(n, s, Recorded).value;
  }

  /** The writes of `new_dump` can be completed, and all shards of the new dump are then awaited. */
  lemma {:induction false} RecordingCanEnd(n: PartCount, states: seq<State>, labels: seq<Label>)
    returns (states': seq<State>, labels': seq<Label>)
    requires IsRun(n, states, labels) && states[|labels|].control.Recording?
    ensures IsRun(n, states', labels') && labels <= labels' && states <= states'
    ensures var s, t := states[|labels|], states'[|labels'|];
            && s.dumps != [] && t.dumps == s.dumps && s.control.todo <= s.dumps[|s.dumps| - 1].runs.Keys
            && t.control.Select? && t.current == InProgress(|s.dumps| - 1, s.dumps[|s.dumps| - 1].runs.Keys)
            && t.progress == RecordedAs(s.progress, s.control.todo, Dumping(s.dumps[|s.dumps| - 1].epoch))
    decreases states[|labels|].control.todo
  {
    Reachable(n, states, labels, |labels|);
    hide StepAt, Init;
    var s := states[|labels|];
    assert s.dumps != [] && s.control.todo <= s.dumps[|s.dumps| - 1].runs.Keys;
    hide Inv, Next;
    var todo, p := s.control.todo, Dumping(s.dumps[|s.dumps| - 1].epoch);
    if todo == {} {
      var t := EndRecording(n, s);
      states', labels' := Extended(n, states, labels, Prepare(Recorded), t);
    } else {
      var shard, t := RecordStep(n, s);
      states', labels' := Extended(n, states, labels, Prepare(RecordDumping(shard)), t);
      states', labels' := RecordingCanEnd(n, states', labels');
      RecordedOneMore(s.progress, todo, shard, p);
    }
  }

  lemma AllOverwritten(progress: map<ShardId, Progress>, todo: set<ShardId>, all: set<ShardId>, p: Progress,
                       q: Progress)
    requires todo <= all
    ensures RecordedAs(RecordedAs(progress, todo, p), all, q) == RecordedAs(progress, all, q)
  {
  }

  lemma NewestIsCurrent(n: PartCount, states: seq<State>, labels: seq<Label>)
    requires IsRun(n, states, labels) && states[|labels|].control.Select? && states[|labels|].current.InProgress?
    ensures states[|labels|].current.id + 1 == |states[|labels|].dumps|
  {
    Reachable(n, states, labels, |labels|);
  }

  /**
   From every reachable state with a running dump, the epoch can still be dumped, with every awaited
   shard recorded.
   */
  lemma DumpCanFinish(n: PartCount, states: seq<State>, labels: seq<Label>)
    returns (states': seq<State>, labels': seq<Label>)
    requires IsRun(n, states, labels) && IsRunning(states[|labels|])
    ensures states[|labels|].dumps != []
    ensures IsRun(n, states', labels') && labels <= labels' && states <= states'
    ensures var s, t := states[|labels|], states'[|labels'|]; var epoch := s.dumps[|s.dumps| - 1].epoch;
            && t.current == Done(epoch)
            && t.progress == RecordedAs(s.progress, Awaited(s), AllDumped(epoch))
  {
    Reachable(n, states, labels, |labels|);
    hide StepAt, Init, Inv;
    var s := states[|labels|];
    states', labels' := states, labels;
    if s.control.Refresh? {
      states', labels' := RefreshCanEnd(n, states, labels);
    } else if s.control.Recording? {
      states', labels' := RecordingCanEnd(n, states, labels);
      var d := s.dumps[|s.dumps| - 1];
      AllOverwritten(s.progress, s.control.todo, d.runs.Keys, Dumping(d.epoch), AllDumped(d.epoch));
    }
    NewestIsCurrent(n, states', labels');
    states', labels' := SelectCanFinish(n, states', labels');
  }

  // Cancellation

  lemma {:induction false} DrainCanFinish(n: PartCount, states: seq<State>, labels: seq<Label>)
    returns (states': seq<State>, labels': seq<Label>)
    requires IsRun(n, states, labels)
    requires states[|labels|].control.Draining? && states[|labels|].current.InProgress?
    ensures IsRun(n, states', labels') && labels <= labels' && states <= states'
    ensures var next := states[|labels|].control.next;
            states'[|labels'|].control == if next.Some? then NewEpoch(next.value) else Stopped
    ensures states'[|labels'|].progress == states[|labels|].progress
    decreases |states[|labels|].current.waiting|
  {
    hide StepAt, Init;
    ReachableAwaits(n, states, labels);
    var s := states[|labels|];
    if s.current.waiting == {} {
      var t := NextCancel(n, s, Drained).value;
      states', labels' := Extended(n, states, labels, Cancel(Drained), t);
    } else {
      var shard :| shard in s.current.waiting;
      states', labels' := BringReady(n, states, labels, shard);
      var t := states'[|labels'|];
      states', labels' := Extended(n, states', labels', Cancel(Drain(shard)), Receive(t, shard));
      states', labels' := DrainCanFinish(n, states', labels');
    }
  }

  lemma DrainingIsInProgress(n: PartCount, s: State)
    requires ControlInv(n, s) && s.control.Draining?
    ensures s.current.InProgress?
  {
  }

  /** One counter is reset, or all are. */
  lemma CancelStep(n: PartCount, s: State) returns (l: CancelLabel, t: State)
    requires ControlInv(n, s) && s.control.Canceling?
    ensures Next(n, s, Cancel(l)) == Some(t) && t.progress == s.progress
    ensures t.control == Draining(s.control.next) ||
            (t.control.Canceling? && t.control.next == s.control.next && |t.control.reset| < |s.control.reset|)
  {
    if s.control.reset == {} {
      l := ResetsDone;
    } else {
      l := ResetCounter(Pick(s.control.reset));
    }
    t := NextCancel(n, s, l).value;
  }

  /** A cancellation can always be completed: the loop goes on to the next epoch, or stops. */
  lemma {:induction false} CancelCanFinish(n: PartCount, states: seq<State>, labels: seq<Label>)
    returns (states': seq<State>, labels': seq<Label>)
    requires IsRun(n, states, labels) && (states[|labels|].control.Canceling? || states[|labels|].control.Draining?)
    ensures IsRun(n, states', labels') && labels <= labels' && states <= states'
    ensures var next := states[|labels|].control.next;
            states'[|labels'|].control == if next.Some? then NewEpoch(next.value) else Stopped
    ensures states'[|labels'|].progress == states[|labels|].progress
    decreases if states[|labels|].control.Canceling? then |states[|labels|].control.reset| + 1 else 0
  {
    hide StepAt, Init, ControlInv, Next;
    Reachable(n, states, labels, |labels|);
    var s := states[|labels|];
    assert ControlInv(n, s);
    if s.control.Draining? {
      DrainingIsInProgress(n, s);
      states', labels' := DrainCanFinish(n, states, labels);
    } else {
      var l, t := CancelStep(n, s);
      states', labels' := Extended(n, states, labels, Cancel(l), t);
      states', labels' := CancelCanFinish(n, states', labels');
    }
  }

  /** Every control state in which a dump has live tasks to await is covered by one of the two. */
  lemma ActiveIsRunningOrCanceled(n: PartCount, states: seq<State>, labels: seq<Label>)
    requires IsRun(n, states, labels)
    ensures var s := states[|labels|];
            IsActive(s) <==> IsRunning(s) || s.control.Canceling? || s.control.Draining?
  {
    Reachable(n, states, labels, |labels|);
  }
}
