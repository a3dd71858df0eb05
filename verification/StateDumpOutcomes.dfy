/**
 What the steps of the state-sync dumper achieve: a restart and a new epoch dump exactly the
 shards that they must, an epoch is reported done only when all its tracked shards are stored, a
 cancellation remembers what it is for, and the storage gains nothing but successful uploads.
 */
module StateDumpOutcomes {
  import opened Wrappers
  import opened StateDump
  import opened StateDumpSafety
  import opened StateDumpRuns

  // What a dump is made for

  /** The persisted progress says that this shard needs no dump for the epoch. */
  predicate NeedsNoDump(s: State, epoch: EpochId, shard: ShardId) {
    shard in s.progress && (s.progress[shard] == AllDumped(epoch) || s.progress[shard] == Skipped(epoch))
  }

  /** A dump of these shards is being prepared, with all headers and all parts still to be uploaded. */
  ghost predicate IsFreshFor(n: PartCount, prep: Prep, epoch: EpochId, shards: set<ShardId>) {
    && prep.epoch == epoch && prep.senders == prep.headers.Keys == prep.missing.Keys == shards
    && (forall shard :: shard in shards ==> prep.headers[shard])
    && forall shard, part: nat :: shard in shards ==> (part in prep.missing[shard] <==> part < n(epoch, shard))
  }

  /** A start dumps exactly the tracked shards that need it, and forgets the progress of other epochs. */
  lemma StartDumpsWhatIsNeeded(n: PartCount, s: State, epoch: EpochId, tracked: set<ShardId>, needed: set<ShardId>)
    requires s.control.Boot?
    requires forall shard :: shard in needed <==> shard in tracked && !NeedsNoDump(s, epoch, shard)
    ensures Next(n, s, Prepare(InitDump(epoch, tracked))).Some?
    ensures var t := Next(n, s, Prepare(InitDump(epoch, tracked))).value;
            && t == s.(control := t.control, current := t.current, progress := t.progress)
            && (needed == {} ==> t.control == Select && t.current == Done(epoch))
            && (needed != {} ==>
                t.control.CheckHeaders? && IsFreshFor(n, t.control.prep, epoch, needed) && t.current == s.current)
    ensures tracked != {} ==>
      var t := Next(n, s, Prepare(InitDump(epoch, tracked))).value;
      forall shard :: (shard in t.progress <==> shard in s.progress && s.progress[shard].epoch == epoch)
                      && (shard in t.progress ==> t.progress[shard] == s.progress[shard])
  {
    var done := DoneShards(s.progress, epoch);
    var prep := Without(FreshPrep(n, epoch, tracked), done);
    assert forall shard :: shard in done <==> NeedsNoDump(s, epoch, shard);
    assert tracked - done == needed;
    assert prep.headers.Keys == needed && prep.missing.Keys == needed;
  }

  /** A new epoch with tracked shards is dumped for all of them; it is done at once only without any. */
  lemma NewEpochIsDumped(n: PartCount, s: State, tracked: set<ShardId>)
    requires s.control.NewEpoch?
    ensures Next(n, s, Cancel(NewDump(tracked))).Some?
    ensures var t := Next(n, s, Cancel(NewDump(tracked))).value;
            && t == s.(control := t.control, current := t.current)
            && (tracked == {} ==> t.control == Select && t.current == Done(s.control.epoch))
            && (tracked != {} ==> t.control.UploadHeaders? && !t.control.init && t.current == s.current
                                  && IsFreshFor(n, t.control.prep, s.control.epoch, tracked))
  {
    var prep := FreshPrep(n, s.control.epoch, tracked);
    assert prep.headers.Keys == tracked && prep.missing.Keys == tracked;
  }

  /** The epoch that the select loop is about. */
  ghost function CurrentEpoch(n: PartCount, s: State): EpochId
    requires Inv(n, s) && s.control.Select?
  {
    if s.current.InProgress? then s.dumps[s.current.id].epoch else s.current.epoch
  }

  /** A head of another epoch starts a cancellation for that epoch, or that epoch itself; other heads change nothing. */
  lemma HeadChangeLeadsToEpoch(n: PartCount, s: State, epoch: EpochId)
    requires Inv(n, s) && s.control.Select?
    ensures Next(n, s, Loop(HeadChanged(epoch))).Some? <==> epoch != CurrentEpoch(n, s)
    ensures epoch != CurrentEpoch(n, s) ==>
      var t := Next(n, s, Loop(HeadChanged(epoch))).value;
      if s.current.InProgress?
      then t.control == Canceling(s.current.waiting, Some(epoch)) && t.dumps[s.current.id].canceled
      else t.control == NewEpoch(epoch)
  {
  }

  /** A stop starts a cancellation for no epoch, or stops the loop at once. */
  lemma StopLeadsToStopped(n: PartCount, s: State)
    requires Inv(n, s) && s.control.Select?
    ensures Next(n, s, Loop(StopLoop)).Some?
    ensures var t := Next(n, s, Loop(StopLoop)).value;
            if s.current.InProgress?
            then t.control == Canceling(s.current.waiting, None) && t.dumps[s.current.id].canceled
            else t.control == Stopped
  {
  }

  // Cancellations

  predicate IsCanceling(c: Control) {
    c.Canceling? || c.Draining?
  }

  lemma CancelKeepsPurpose(n: PartCount, s: State, l: Label)
    requires Inv(n, s) && IsCanceling(s.control) && Next(n, s, l).Some? && l != Environment(Crash)
    ensures var t, next := Next(n, s, l).value, s.control.next;
            || (IsCanceling(t.control) && t.control.next == next)
            || t.control == (if next.Some? then NewEpoch(next.value) else Stopped)
  {
  }

  /**
   From the start of a cancellation on, while the process lives: it goes on for the same
   purpose, and where it ends the loop is at the new epoch, or stopped.
   */
  lemma {:induction false} CancellationRemembersWhy(n: PartCount, states: seq<State>, labels: seq<Label>,
                                                    i: nat, j: nat)
    requires IsRun(n, states, labels) && i < j < |states| && IsCanceling(states[i].control)
    requires forall k :: i <= k < j ==> labels[k] != Environment(Crash)
    requires forall k :: i <= k < j ==> IsCanceling(states[k].control)
    ensures var next := states[i].control.next;
            || (IsCanceling(states[j].control) && states[j].control.next == next)
            || states[j].control == (if next.Some? then NewEpoch(next.value) else Stopped)
  {
    if i + 1 < j {
      CancellationRemembersWhy(n, states, labels, i, j - 1);
    }
    Reachable(n, states, labels, j - 1);
    assert StepAt(n, states, labels, j - 1) && labels[j - 1] != Environment(Crash);
    assert IsCanceling(states[j - 1].control);
    CancelKeepsPurpose(n, states[j - 1], labels[j - 1]);
  }

  // Done means done

  /** Step k prepares the dump of these tracked shards for this epoch. */
  ghost predicate IsPreparedBy(states: seq<State>, labels: seq<Label>, k: nat, epoch: EpochId, tracked: set<ShardId>) {
    && k < |labels| && k < |states|
    && (|| labels[k] == Prepare(InitDump(epoch, tracked))
        || (labels[k] == Cancel(NewDump(tracked)) && states[k].control == NewEpoch(epoch)))
  }

  predicate IsPreparation(l: Label) {
    (l.Prepare? && l.prepare.InitDump?) || (l.Cancel? && l.cancel.NewDump?)
  }

  /** The shard is stored completely, or was persisted as skipped. */
  ghost predicate IsSettled(n: PartCount, s: State, epoch: EpochId, shard: ShardId) {
    Complete(n, s.external, epoch, shard) || (shard in s.progress && s.progress[shard] == Skipped(epoch))
  }

  ghost predicate AllSettledBut(n: PartCount, s: State, epoch: EpochId, tracked: set<ShardId>, shards: set<ShardId>) {
    forall shard :: shard in tracked ==> shard in shards || IsSettled(n, s, epoch, shard)
  }

  ghost predicate IsAboutDump(n: PartCount, s: State, id: nat, epoch: EpochId, tracked: set<ShardId>)
    requires id < |s.dumps|
  {
    s.dumps[id].epoch == epoch && AllSettledBut(n, s, epoch, tracked, s.dumps[id].runs.Keys)
  }

  /** Between its preparation and the next one, a dump is about all tracked shards that are not settled. */
  ghost predicate IsAbout(n: PartCount, s: State, epoch: EpochId, tracked: set<ShardId>) {
    match s.control
    case CheckHeaders(prep) => prep.epoch == epoch && AllSettledBut(n, s, epoch, tracked, prep.missing.Keys)
    case UploadHeaders(prep, _) => prep.epoch == epoch && AllSettledBut(n, s, epoch, tracked, prep.missing.Keys)
    case ListParts(prep) => prep.epoch == epoch && AllSettledBut(n, s, epoch, tracked, prep.missing.Keys)
    case Recording(_) => s.dumps != [] && IsAboutDump(n, s, |s.dumps| - 1, epoch, tracked)
    case Select =>
      if s.current.InProgress? then s.current.id < |s.dumps| && IsAboutDump(n, s, s.current.id, epoch, tracked)
      else s.current == Done(epoch) && AllSettledBut(n, s, epoch, tracked, {})
    case Refresh(_, _) =>
      s.current.InProgress? && s.current.id < |s.dumps| && IsAboutDump(n, s, s.current.id, epoch, tracked)
    case _ => true
  }

  /** Is a state in which IsAbout says something. */
  predicate IsUnderWay(s: State) {
    || s.control.CheckHeaders? || s.control.UploadHeaders? || s.control.ListParts? || s.control.Recording?
    || s.control.Select? || s.control.Refresh?
  }

  lemma SettledStays(n: PartCount, s: State, t: State, epoch: EpochId, tracked: set<ShardId>, shards: set<ShardId>)
    requires AllSettledBut(n, s, epoch, tracked, shards) && s.external <= t.external
    requires forall shard :: shard in s.progress && shard !in shards ==>
      shard in t.progress && t.progress[shard] == s.progress[shard]
    ensures AllSettledBut(n, t, epoch, tracked, shards)
  {
    forall shard | shard in tracked && shard !in shards
      ensures IsSettled(n, t, epoch, shard)
    {
      assert IsSettled(n, s, epoch, shard);
    }
  }

  lemma PrepareIsAbout(n: PartCount, s: State, l: PrepareLabel, epoch: EpochId, tracked: set<ShardId>)
    requires Inv(n, s) && IsAbout(n, s, epoch, tracked) && IsUnderWay(s) && NextPrepare(n, s, l).Some? && !l.InitDump?
    ensures IsAbout(n, NextPrepare(n, s, l).value, epoch, tracked)
  {
    var t := NextPrepare(n, s, l).value;
    if l.StartUploads? {
      var prep := s.control.prep;
      assert t.dumps[|s.dumps|].runs.Keys == prep.missing.Keys;
      SettledStays(n, s, t, epoch, tracked, prep.missing.Keys);
    } else if s.control.Recording? {
      SettledStays(n, s, t, epoch, tracked, s.dumps[|s.dumps| - 1].runs.Keys);
    } else {
      assert t.control.prep.missing.Keys == s.control.prep.missing.Keys;
      SettledStays(n, s, t, epoch, tracked, s.control.prep.missing.Keys);
    }
  }

  lemma FinishIsAbout(n: PartCount, s: State, shard: ShardId, epoch: EpochId, tracked: set<ShardId>)
    requires Inv(n, s) && IsAbout(n, s, epoch, tracked) && s.control.Select? && Ready(s, shard)
    ensures IsAbout(n, AfterPartsUploaded(s, shard), epoch, tracked)
  {
    var t := AfterPartsUploaded(s, shard);
    var d := s.dumps[s.current.id];
    SettledStays(n, s, t, epoch, tracked, d.runs.Keys);
    if t.current.Done? {
      forall other | other in d.runs
        ensures Complete(n, s.external, epoch, other)
      {
        assert DumpInv(n, s.external, d);
        assert other !in s.current.waiting - {shard};
        assert d.runs[other].sent;
        SentIsComplete(n, s.external, d.epoch, other, d.runs[other]);
      }
    }
  }

  lemma RefreshIsAbout(n: PartCount, s: State, epoch: EpochId, tracked: set<ShardId>)
    requires Inv(n, s) && IsAbout(n, s, epoch, tracked) && NextRefreshWrite(n, s).Some?
    ensures IsAbout(n, NextRefreshWrite(n, s).value, epoch, tracked)
  {
    var t, id := NextRefreshWrite(n, s).value, s.current.id;
    assert t.dumps[id].runs.Keys == s.dumps[id].runs.Keys;
    SettledStays(n, s, t, epoch, tracked, s.dumps[id].runs.Keys);
  }

  lemma SelectIsAbout(n: PartCount, s: State, l: SelectLabel, epoch: EpochId, tracked: set<ShardId>)
    requires Inv(n, s) && IsAbout(n, s, epoch, tracked) && IsUnderWay(s) && NextSelect(n, s, l).Some?
    ensures IsAbout(n, NextSelect(n, s, l).value, epoch, tracked)
  {
    var t := NextSelect(n, s, l).value;
    if l.PartsUploaded? {
      FinishIsAbout(n, s, l.shard, epoch, tracked);
    } else if l.RefreshWrite? {
      RefreshIsAbout(n, s, epoch, tracked);
    } else if IsUnderWay(t) {
      SettledStays(n, s, t, epoch, tracked, s.dumps[s.current.id].runs.Keys);
    }
  }

  /** A step of a task, a report or a foreign upload leaves the loop where it is, and dumps about the same shards. */
  lemma OtherIsAbout(n: PartCount, s: State, t: State, epoch: EpochId, tracked: set<ShardId>)
    requires Inv(n, s) && IsAbout(n, s, epoch, tracked) && IsUnderWay(s)
    requires s.external <= t.external && t.progress == s.progress && t.control == s.control && t.current == s.current
    requires |t.dumps| == |s.dumps|
    requires forall id :: 0 <= id < |s.dumps| ==>
      t.dumps[id].epoch == s.dumps[id].epoch && t.dumps[id].runs.Keys == s.dumps[id].runs.Keys
    ensures IsAbout(n, t, epoch, tracked)
  {
    if s.control.Recording? {
      SettledStays(n, s, t, epoch, tracked, s.dumps[|s.dumps| - 1].runs.Keys);
    } else if s.control.Select? && s.current.Done? {
      SettledStays(n, s, t, epoch, tracked, {});
    } else if s.control.Select? || s.control.Refresh? {
      SettledStays(n, s, t, epoch, tracked, s.dumps[s.current.id].runs.Keys);
    } else {
      SettledStays(n, s, t, epoch, tracked, s.control.prep.missing.Keys);
    }
  }

  lemma TaskIsAbout(n: PartCount, s: State, l: Label, epoch: EpochId, tracked: set<ShardId>)
    requires Inv(n, s) && IsAbout(n, s, epoch, tracked) && IsUnderWay(s) && Next(n, s, l).Some?
    requires l.TaskStep? || l.SendDone?
    ensures IsAbout(n, Next(n, s, l).value, epoch, tracked)
  {
    hide IsAbout, Inv;
    OtherIsAbout(n, s, Next(n, s, l).value, epoch, tracked);
  }

  lemma EnvironmentIsAbout(n: PartCount, s: State, l: EnvironmentLabel, epoch: EpochId, tracked: set<ShardId>)
    requires Inv(n, s) && IsAbout(n, s, epoch, tracked) && IsUnderWay(s) && NextEnvironment(s, l).Some?
    ensures IsAbout(n, NextEnvironment(s, l).value, epoch, tracked)
  {
    if l.ForeignUpload? {
      hide IsAbout, Inv;
      OtherIsAbout(n, s, NextEnvironment(s, l).value, epoch, tracked);
    }
  }

  lemma StepIsAbout(n: PartCount, s: State, l: Label, epoch: EpochId, tracked: set<ShardId>)
    requires Inv(n, s) && IsAbout(n, s, epoch, tracked) && IsUnderWay(s) && Next(n, s, l).Some? && !IsPreparation(l)
    ensures IsAbout(n, Next(n, s, l).value, epoch, tracked)
  {
    hide IsAbout, Inv, NextEnvironment, NextPrepare, NextSelect, NextTaskStep, NextSend;
    match l
    case Environment(env) => EnvironmentIsAbout(n, s, env, epoch, tracked);
    case Prepare(prepare) => PrepareIsAbout(n, s, prepare, epoch, tracked);
    case Loop(loop) => SelectIsAbout(n, s, loop, epoch, tracked);
    case Cancel(cancel) =>
    case TaskStep(_, _, _, _) => TaskIsAbout(n, s, l, epoch, tracked);
    case SendDone(_, _) => TaskIsAbout(n, s, l, epoch, tracked);
  }

  /** A step from elsewhere into such a state is a preparation. */
  lemma GetsUnderWay(n: PartCount, s: State, l: Label)
    requires !IsUnderWay(s) && Next(n, s, l).Some? && IsUnderWay(Next(n, s, l).value)
    ensures IsPreparation(l)
  {
  }

  lemma PreparationIsAbout(n: PartCount, s: State, l: Label) returns (epoch: EpochId, tracked: set<ShardId>)
    requires Inv(n, s) && IsPreparation(l) && Next(n, s, l).Some?
    ensures l == Prepare(InitDump(epoch, tracked)) || (l == Cancel(NewDump(tracked)) && s.control == NewEpoch(epoch))
    ensures IsAbout(n, Next(n, s, l).value, epoch, tracked)
  {
    if l.Prepare? {
      epoch, tracked := l.prepare.epoch, l.prepare.tracked;
      var needed := set shard | shard in tracked && !NeedsNoDump(s, epoch, shard);
      StartDumpsWhatIsNeeded(n, s, epoch, tracked, needed);
      var t := Next(n, s, l).value;
      hide Next;
      forall shard | shard in tracked && shard !in needed
        ensures IsSettled(n, t, epoch, shard)
      {
        assert NeedsNoDump(s, epoch, shard);
      }
    } else {
      epoch, tracked := s.control.epoch, l.cancel.tracked;
      NewEpochIsDumped(n, s, tracked);
    }
  }

  /**
   Whenever the loop selects with an epoch that is done, or is on its way there: a last
   preparation names the epoch and the tracked shards, and each of these is in the dump or settled.
   */
  lemma {:induction false} UnderWayIsAbout(n: PartCount, states: seq<State>, labels: seq<Label>, i: nat)
    returns (k: nat, epoch: EpochId, tracked: set<ShardId>)
    requires IsRun(n, states, labels) && i < |states| && IsUnderWay(states[i])
    ensures k < i && IsPreparedBy(states, labels, k, epoch, tracked)
    ensures forall m :: k < m < i ==> !IsPreparation(labels[m])
    ensures IsAbout(n, states[i], epoch, tracked)
  {
    hide Next, IsAbout, Inv;
    assert i > 0;
    assert StepAt(n, states, labels, i - 1);
    Reachable(n, states, labels, i - 1);
    if IsPreparation(labels[i - 1]) {
      k := i - 1;
      epoch, tracked := PreparationIsAbout(n, states[i - 1], labels[i - 1]);
    } else {
      if !IsUnderWay(states[i - 1]) {
        GetsUnderWay(n, states[i - 1], labels[i - 1]);
      }
      k, epoch, tracked := UnderWayIsAbout(n, states, labels, i - 1);
      StepIsAbout(n, states[i - 1], labels[i - 1], epoch, tracked);
    }
  }

  /**
   An epoch is reported done, at a start, at a new epoch or after the last report, only when
   every shard that was tracked for it is stored completely, or was persisted as skipped.
   */
  lemma DoneIsComplete(n: PartCount, states: seq<State>, labels: seq<Label>, i: nat)
    returns (k: nat, tracked: set<ShardId>)
    requires IsRun(n, states, labels) && i < |states| && states[i].control.Select? && states[i].current.Done?
    ensures k < i && IsPreparedBy(states, labels, k, states[i].current.epoch, tracked)
    ensures forall m :: k < m < i ==> !IsPreparation(labels[m])
    ensures forall shard :: shard in tracked ==> IsSettled(n, states[i], states[i].current.epoch, shard)
  {
    var epoch: EpochId;
    k, epoch, tracked := UnderWayIsAbout(n, states, labels, i);
  }

  /** While a dump is in progress, every shard tracked for its epoch is in the dump, or settled. */
  lemma DumpIsAboutTracked(n: PartCount, states: seq<State>, labels: seq<Label>, i: nat)
    returns (k: nat, tracked: set<ShardId>)
    requires IsRun(n, states, labels) && i < |states| && states[i].control.Select? && states[i].current.InProgress?
    ensures states[i].current.id < |states[i].dumps|
    ensures var d := states[i].dumps[states[i].current.id];
            && k < i && IsPreparedBy(states, labels, k, d.epoch, tracked)
            && (forall m :: k < m < i ==> !IsPreparation(labels[m]))
            && forall shard :: shard in tracked ==> shard in d.runs || IsSettled(n, states[i], d.epoch, shard)
  {
    var epoch: EpochId;
    k, epoch, tracked := UnderWayIsAbout(n, states, labels, i);
  }

  // What the storage gains

  /** The step uploads this file, and the upload succeeds. */
  predicate Uploads(s: State, l: Label, file: File) {
    match l
    case Environment(ForeignUpload(f)) => f == file
    case Prepare(HeaderPut(shard)) => s.control.UploadHeaders? && file == HeaderFile(s.control.prep.epoch, shard)
    case TaskStep(id, shard, part, ok) =>
      && ok && HasTask(s, id, shard, part) && TaskAt(s, id, shard, part) == Putting
      && file == PartFile(s.dumps[id].epoch, shard, part)
    case _ => false
  }

  /** A step stores a file exactly when it is a successful upload of it. */
  lemma StorageGainsUploads(n: PartCount, s: State, l: Label, file: File)
    requires Next(n, s, l).Some?
    ensures file in Next(n, s, l).value.external <==> file in s.external || Uploads(s, l, file)
  {
  }

  // Listings

  /** A listing that is taken over makes exactly its complement the missing parts of that shard, and of no other. */
  lemma ListingIsTakenOver(n: PartCount, s: State, shard: ShardId, listed: set<nat>)
    requires Next(n, s, Prepare(InitListed(shard, listed))).Some?
    ensures var t := Next(n, s, Prepare(InitListed(shard, listed))).value;
            && t.control.ListParts? && shard in s.control.prep.missing
            && t.control.prep.missing.Keys == s.control.prep.missing.Keys
            && (forall part: nat :: part in t.control.prep.missing[shard] <==>
                  part < n(s.control.prep.epoch, shard) && part !in listed)
            && forall other :: other in s.control.prep.missing && other != shard ==>
                 t.control.prep.missing[other] == s.control.prep.missing[other]
  {
  }

  /** The same for the periodic listing of a running dump, which changes nothing else of it. */
  lemma RefreshTakesOverListing(n: PartCount, s: State)
    requires Next(n, s, Loop(RefreshWrite)).Some?
    ensures s.control.Refresh? && s.control.listed.Some? && s.current.InProgress? && s.current.id < |s.dumps|
    ensures var t, id, (shard, listed) := Next(n, s, Loop(RefreshWrite)).value, s.current.id, s.control.listed.value;
            && shard in s.dumps[id].runs && |t.dumps| == |s.dumps| && shard in t.dumps[id].runs
            && (forall part: nat :: part in t.dumps[id].runs[shard].missing <==>
                  part < n(s.dumps[id].epoch, shard) && part !in listed)
            && t.dumps[id] == s.dumps[id].(runs := s.dumps[id].runs[shard := t.dumps[id].runs[shard]])
            && t.dumps[id].runs[shard] == s.dumps[id].runs[shard].(missing := t.dumps[id].runs[shard].missing)
  {
  }
}
