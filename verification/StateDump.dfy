/**
 The state-sync dumper as a labelled transition system.

 One node runs a control loop (init, then a select loop over a changed chain head, a
 periodic listing of the external storage and finished shards) together with one upload
 task per state part.  Tasks run on other threads, other machines write to the same
 external storage, and the process may die and come back.  A label is one atomic step of
 one of these parties; `Next` is the effect of the step, or None when it cannot be taken.

 `n(epoch, shard)` is the number of state parts, fixed by the state header.
 */
module StateDump {
  import opened Wrappers

  type EpochId = nat
  type ShardId = nat
  type PartCount = (EpochId, ShardId) -> nat

  /** Names in the external storage.  Nothing is ever deleted from it. */
  datatype File =
    | HeaderFile(epoch: EpochId, shard: ShardId)
    | PartFile(epoch: EpochId, shard: ShardId, part: nat)

  /** Persisted per shard.  `Skipped` is read back as done, like `AllDumped`. */
  datatype Progress = AllDumped(epoch: EpochId) | Skipped(epoch: EpochId) | Dumping(epoch: EpochId) {
    predicate IsDone() { !Dumping? }
  }

  /** Program counter of `upload_state_part`. */
  datatype Task =
    | Waiting     // not started, or about to look at `parts_missing`
    | ObtainHead  // about to read `canceled` in the obtain loop
    | Obtaining   // generating the part
    | UploadHead  // about to read `canceled` in the upload loop
    | Putting     // `put_file` in flight
    | Counting    // about to bump `parts_dumped`
    | Finished(present: bool)  // returned Ok; `present` is false when it left because of `canceled`

  /** What the tasks of one shard share with the control loop. */
  datatype ShardRun = ShardRun(missing: set<nat>, dumped: int, tasks: seq<Task>, sent: bool)

  datatype Dump = Dump(epoch: EpochId, canceled: bool, runs: map<ShardId, ShardRun>)

  /** `id` is a position in `dumps`; `waiting` holds the keys left in `dump_state`. */
  datatype CurrentDump = NoDump | InProgress(id: nat, waiting: set<ShardId>) | Done(epoch: EpochId)

  /** A DumpState under construction.  `headers[s]` tells whether the header of s is still to be uploaded. */
  datatype Prep = Prep(epoch: EpochId, headers: map<ShardId, bool>, missing: map<ShardId, set<nat>>,
      senders: set<ShardId>)

  /** Where the control loop is. */
  datatype Control =
    | Boot
    | CheckHeaders(prep: Prep)
    | UploadHeaders(prep: Prep, init: bool)
    | ListParts(prep: Prep)
    | Recording(todo: set<ShardId>)
    | Select
    | Refresh(todo: set<ShardId>, listed: Option<(ShardId, set<nat>)>)
    | Canceling(reset: set<ShardId>, next: Option<EpochId>)
    | Draining(next: Option<EpochId>)
    | NewEpoch(epoch: EpochId)
    | Stopped
    | Failed

  /** `leaked` is history: the dumps whose control loop ended with an error and was never canceled. */
  datatype State = State(
    external: set<File>,
    progress: map<ShardId, Progress>,
    control: Control,
    current: CurrentDump,
    dumps: seq<Dump>,
    leaked: set<nat>)

  /** Other machines, the operating system and the operator. */
  datatype EnvironmentLabel =
    | ForeignUpload(file: File)
    | Crash
    | Restart
    | DropProgress(shard: ShardId)

  /** `init`, and what `check_head` does once it knows the new epoch's shards. */
  datatype PrepareLabel =
    | InitDump(epoch: EpochId, tracked: set<ShardId>)
    | InitFail(epoch: EpochId, dropped: set<ShardId>)
    | HeaderFound(shard: ShardId)
    | HeadersChecked
    | HeaderPut(shard: ShardId)
    | HeadersUploaded
    | InitListed(shard: ShardId, listed: set<nat>)
    | StartUploads
    | RecordDumping(shard: ShardId)
    | Recorded

  /** The arms of the select loop. */
  datatype SelectLabel =
    | PartsUploaded(shard: ShardId)
    | PartsUploadedFail(shard: ShardId)
    | RefreshStart
    | RefreshList(shard: ShardId, listed: set<nat>)
    | RefreshWrite
    | RefreshSkip(shard: ShardId)
    | RefreshEnd
    | HeadChanged(epoch: EpochId)
    | StopLoop
    | LoopFail

  /** `cancel`, and the start of the next dump. */
  datatype CancelLabel =
    | ResetCounter(shard: ShardId)
    | ResetsDone
    | Drain(shard: ShardId)
    | Drained
    | NewDump(tracked: set<ShardId>)

  datatype Label =
    | Environment(env: EnvironmentLabel)
    | Prepare(prepare: PrepareLabel)
    | Loop(loop: SelectLabel)
    | Cancel(cancel: CancelLabel)
    | TaskStep(id: nat, shard: ShardId, part: nat, ok: bool)
    | SendDone(id: nat, shard: ShardId)

  function PartIds(count: nat): (ids: set<nat>)
    ensures forall i: nat :: i in ids <==> i < count
  {
    if count == 0 then {} else PartIds(count - 1) + {count - 1}
  }

  /** `get_missing_part_ids_for_epoch`, given the part numbers seen in the listing. */
  function MissingPartIds(total: nat, existing: set<nat>): (missing: set<nat>)
    ensures forall i: nat :: i in missing <==> i < total && i !in existing
  {
    PartIds(total) - existing
  }

  predicate AllFinished(tasks: seq<Task>) {
    forall p :: 0 <= p < |tasks| ==> tasks[p].Finished?
  }

  predicate Quiescent(d: Dump) {
    forall s :: s in d.runs ==> AllFinished(d.runs[s].tasks)
  }

  /** Header and every part of the shard are stored. */
  predicate Complete(n: PartCount, external: set<File>, epoch: EpochId, shard: ShardId) {
    && HeaderFile(epoch, shard) in external
    && forall p :: 0 <= p < n(epoch, shard) ==> PartFile(epoch, shard, p) in external
  }

  /** The entries `check_old_progress` deletes. */
  function StaleShards(progress: map<ShardId, Progress>, epoch: EpochId): set<ShardId> {
    set s | s in progress && progress[s].epoch != epoch
  }

  /** The shards `check_old_progress` takes out of the new dump. */
  function DoneShards(progress: map<ShardId, Progress>, epoch: EpochId): set<ShardId> {
    set s | s in progress && progress[s].epoch == epoch && progress[s].IsDone()
  }

  /** `get_dump_state` for the tracked shards. */
  function FreshPrep(n: PartCount, epoch: EpochId, tracked: set<ShardId>): Prep {
    Prep(epoch, map s | s in tracked :: true, map s | s in tracked :: PartIds(n(epoch, s)), tracked)
  }

  function Without(prep: Prep, done: set<ShardId>): Prep {
    prep.(headers := prep.headers - done, missing := prep.missing - done, senders := prep.senders - done)
  }

  function StartRun(n: PartCount, epoch: EpochId, shard: ShardId, missing: set<nat>): ShardRun {
    ShardRun(missing, 0, seq(n(epoch, shard), _ => Waiting), n(epoch, shard) == 0)
  }

  function StartDump(n: PartCount, prep: Prep): Dump {
    Dump(prep.epoch, false, map s | s in prep.missing :: StartRun(n, prep.epoch, s, prep.missing[s]))
  }

  predicate HeadersStored(prep: Prep) {
    forall s :: s in prep.headers ==> !prep.headers[s]
  }

  predicate IsActive(s: State) {
    s.control.Recording? || ((s.control.Select? || s.control.Refresh? || s.control.Canceling? || s.control.Draining?)
        && s.current.InProgress?)
  }

  /** The loop returns an error: tasks of the running dump stay behind, nobody cancels them. */
  function Fail(s: State): State {
    s.(control := Failed, leaked := if IsActive(s) && 0 < |s.dumps| then s.leaked + {|s.dumps| - 1} else s.leaked)
  }

  function SetRun(s: State, id: nat, shard: ShardId, run: ShardRun): State
    requires id < |s.dumps|
  {
    s.(dumps := s.dumps[id := s.dumps[id].(runs := s.dumps[id].runs[shard := run])])
  }

  /** The shard's sender was used: `upload_parts` is ready. */
  predicate Ready(s: State, shard: ShardId) {
    s.current.InProgress? && s.current.id < |s.dumps| && shard in s.current.waiting
    && shard in s.dumps[s.current.id].runs && s.dumps[s.current.id].runs[shard].sent
  }

  /** Every name in a listing is stored, though the listing may be old or partial. */
  predicate ListedParts(external: set<File>, epoch: EpochId, shard: ShardId, listed: set<nat>) {
    forall p :: p in listed ==> PartFile(epoch, shard, p) in external
  }

  /**
   The program counter after the next step; `missing` and `canceled` are read in that step, `ok` is
   the outcome of the awaited call.
   */
  function NextPc(pc: Task, missing: bool, canceled: bool, ok: bool): Task {
    match pc
    case Waiting => if missing then ObtainHead else Counting
    case ObtainHead => if canceled then Finished(false) else Obtaining
    case Obtaining => if ok then UploadHead else ObtainHead
    case UploadHead => if canceled then Finished(false) else Putting
    case Putting => if ok then Counting else UploadHead
    case Counting => Finished(true)
    case Finished(present) => Finished(present)
  }

  function NextTask(run: ShardRun, part: nat, canceled: bool, ok: bool): Task
    requires part < |run.tasks|
  {
    NextPc(run.tasks[part], part in run.missing, canceled, ok)
  }

  /** One step of `upload_state_part`, with `inc_parts_dumped` at Counting. */
  function StepRun(run: ShardRun, part: nat, canceled: bool, ok: bool): ShardRun
    requires part < |run.tasks|
  {
    run.(tasks := run.tasks[part := NextTask(run, part, canceled, ok)],
         dumped := if run.tasks[part].Counting? && run.dumped >= 0 then run.dumped + 1 else run.dumped)
  }

  predicate HasTask(s: State, id: nat, shard: ShardId, part: nat) {
    id < |s.dumps| && shard in s.dumps[id].runs && part < |s.dumps[id].runs[shard].tasks|
  }

  function TaskAt(s: State, id: nat, shard: ShardId, part: nat): Task
    requires HasTask(s, id, shard, part)
  {
    s.dumps[id].runs[shard].tasks[part]
  }

  predicate Live(s: State, id: nat, shard: ShardId, part: nat) {
    HasTask(s, id, shard, part) && !TaskAt(s, id, shard, part).Finished?
  }

  function TakeTaskStep(s: State, id: nat, shard: ShardId, part: nat, ok: bool): State
    requires HasTask(s, id, shard, part)
  {
    var d := s.dumps[id];
    var t := SetRun(s, id, shard, StepRun(d.runs[shard], part, d.canceled, ok));
    if d.runs[shard].tasks[part].Putting? && ok
    then t.(external := s.external + {PartFile(d.epoch, shard, part)})
    else t
  }

  function NextTaskStep(s: State, id: nat, shard: ShardId, part: nat, ok: bool): Option<State> {
    if Live(s, id, shard, part) then Some(TakeTaskStep(s, id, shard, part, ok)) else None
  }

  /** `dump_shard_state` has seen every task return and uses the sender. */
  function NextSend(s: State, id: nat, shard: ShardId): Option<State> {
    if id < |s.dumps| && shard in s.dumps[id].runs && !s.dumps[id].runs[shard].sent
       && AllFinished(s.dumps[id].runs[shard].tasks)
    then Some(SetRun(s, id, shard, s.dumps[id].runs[shard].(sent := true)))
    else None
  }

  function NextEnvironment(s: State, l: EnvironmentLabel): Option<State> {
    match l
    case ForeignUpload(file) => Some(s.(external := s.external + {file}))
    case Crash => Some(s.(control := Boot, current := NoDump, dumps := [], leaked := {}))
    case Restart => if s.control.Stopped? || s.control.Failed? then Some(s.(control := Boot, current := NoDump))
        else None
    case DropProgress(shard) => if s.control.Boot? then Some(s.(progress := s.progress - {shard})) else None
  }

  /** `init` up to the end of its synchronous part. */
  function AfterInit(n: PartCount, s: State, epoch: EpochId, tracked: set<ShardId>): State {
    if tracked == {} then s.(control := Select, current := Done(epoch))
    else
      var prep := Without(FreshPrep(n, epoch, tracked), DoneShards(s.progress, epoch));
      var t := s.(progress := s.progress - StaleShards(s.progress, epoch));
      if prep.headers.Keys == {} then t.(control := Select, current := Done(epoch))
          else t.(control := CheckHeaders(prep))
  }

  function AfterStart(n: PartCount, s: State, prep: Prep): State {
    s.(dumps := s.dumps + [StartDump(n, prep)], control := Recording(prep.headers.Keys))
  }

  function NextPrepare(n: PartCount, s: State, l: PrepareLabel): Option<State> {
    match l
    case InitDump(epoch, tracked) => if s.control.Boot? then Some(AfterInit(n, s, epoch, tracked)) else None
    case InitFail(epoch, dropped) =>
      if s.control.Boot? && dropped <= StaleShards(s.progress, epoch)
          then Some(Fail(s.(progress := s.progress - dropped))) else None
    case HeaderFound(shard) =>
      if s.control.CheckHeaders? && shard in s.control.prep.headers
          && HeaderFile(s.control.prep.epoch, shard) in s.external
      then Some(s.(control := CheckHeaders(s.control.prep.(headers := s.control.prep.headers[shard := false]))))
          else None
    case HeadersChecked => if s.control.CheckHeaders? then Some(s.(control := UploadHeaders(s.control.prep, true)))
        else None
    case HeaderPut(shard) =>
      if s.control.UploadHeaders? && shard in s.control.prep.headers && s.control.prep.headers[shard]
      then Some(s.(external := s.external + {HeaderFile(s.control.prep.epoch, shard)},
                   control := UploadHeaders(s.control.prep.(headers := s.control.prep.headers[shard := false]),
                       s.control.init)))
      else None
    case HeadersUploaded =>
      if s.control.UploadHeaders? && s.control.init && HeadersStored(s.control.prep)
          then Some(s.(control := ListParts(s.control.prep))) else None
    case InitListed(shard, listed) =>
      if s.control.ListParts? && shard in s.control.prep.missing
          && ListedParts(s.external, s.control.prep.epoch, shard, listed)
      then var p := s.control.prep;
           Some(s.(control := ListParts(p.(missing := p.missing[shard := MissingPartIds(n(p.epoch, shard), listed)]))))
      else None
    case StartUploads =>
      if s.control.ListParts? || (s.control.UploadHeaders? && !s.control.init && HeadersStored(s.control.prep))
      then Some(AfterStart(n, s, s.control.prep)) else None
    case RecordDumping(shard) =>
      if s.control.Recording? && shard in s.control.todo && 0 < |s.dumps|
      then Some(s.(progress := s.progress[shard := Dumping(s.dumps[|s.dumps| - 1].epoch)],
                   control := Recording(s.control.todo - {shard})))
      else None
    case Recorded =>
      if s.control.Recording? && s.control.todo == {} && 0 < |s.dumps|
      then Some(s.(control := Select, current := InProgress(|s.dumps| - 1, s.dumps[|s.dumps| - 1].runs.Keys))) else None
  }

  /** `await_parts_upload` has returned `shard`. */
  function Receive(s: State, shard: ShardId): State
    requires s.current.InProgress?
  {
    s.(current := InProgress(s.current.id, s.current.waiting - {shard}))
  }

  /** `check_parts_upload` with a successful write of the progress. */
  function AfterPartsUploaded(s: State, shard: ShardId): State
    requires Ready(s, shard)
  {
    var epoch := s.dumps[s.current.id].epoch;
    var t := Receive(s, shard).(progress := s.progress[shard := AllDumped(epoch)]);
    if t.current.waiting == {} then t.(current := Done(epoch)) else t
  }

  /** `cancel` up to the first counter: the flag is set. */
  function AfterCancel(s: State, next: Option<EpochId>): State
    requires s.current.InProgress? && s.current.id < |s.dumps|
  {
    s.(dumps := s.dumps[s.current.id := s.dumps[s.current.id].(canceled := true)],
       control := Canceling(s.current.waiting, next))
  }

  /** `set_missing_parts` stores the complement of the listing it took earlier. */
  function NextRefreshWrite(n: PartCount, s: State): Option<State> {
    if s.control.Refresh? && s.control.listed.Some? && s.current.InProgress? && s.current.id < |s.dumps|
       && s.control.listed.value.0 in s.dumps[s.current.id].runs
    then
      var (shard, listed) := s.control.listed.value;
      var d := s.dumps[s.current.id];
      Some(SetRun(s, s.current.id, shard, d.runs[shard].(missing := MissingPartIds(n(d.epoch, shard), listed)))
           .(control := Refresh(s.control.todo - {shard}, None)))
    else None
  }

  function NextSelect(n: PartCount, s: State, l: SelectLabel): Option<State> {
    match l
    case PartsUploaded(shard) => if s.control.Select? && Ready(s, shard) then Some(AfterPartsUploaded(s, shard))
        else None
    case PartsUploadedFail(shard) => if s.control.Select? && Ready(s, shard) then Some(Fail(Receive(s, shard)))
        else None
    case RefreshStart =>
      if s.control.Select? && s.current.InProgress? then Some(s.(control := Refresh(s.current.waiting, None))) else None
    case RefreshList(shard, listed) =>
      if s.control.Refresh? && s.control.listed.None? && s.current.InProgress? && s.current.id < |s.dumps|
          && shard in s.control.todo
         && ListedParts(s.external, s.dumps[s.current.id].epoch, shard, listed)
      then Some(s.(control := Refresh(s.control.todo, Some((shard, listed))))) else None
    case RefreshWrite => NextRefreshWrite(n, s)
    case RefreshSkip(shard) =>
      if s.control.Refresh? && s.control.listed.None? && shard in s.control.todo
      then Some(s.(control := Refresh(s.control.todo - {shard}, None))) else None
    case RefreshEnd => if s.control.Refresh? && s.control.todo == {} then Some(s.(control := Select)) else None
    case HeadChanged(epoch) =>
      if !s.control.Select? then None
      else if s.current.InProgress? then
        if s.current.id < |s.dumps| && s.dumps[s.current.id].epoch != epoch then Some(AfterCancel(s, Some(epoch)))
            else None
      else if s.current.Done? && s.current.epoch == epoch then None
      else Some(s.(control := NewEpoch(epoch)))
    case StopLoop =>
      if !s.control.Select? then None
      else if s.current.InProgress? then if s.current.id < |s.dumps| then Some(AfterCancel(s, None)) else None
      else Some(s.(control := Stopped))
    case LoopFail => if s.control.Select? || s.control.NewEpoch? || s.control.Recording? then Some(Fail(s)) else None
  }

  function NextCancel(n: PartCount, s: State, l: CancelLabel): Option<State> {
    match l
    case ResetCounter(shard) =>
      if s.control.Canceling? && shard in s.control.reset && s.current.InProgress? && s.current.id < |s.dumps|
         && shard in s.dumps[s.current.id].runs
      then Some(SetRun(s, s.current.id, shard, s.dumps[s.current.id].runs[shard].(dumped := -1))
                .(control := Canceling(s.control.reset - {shard}, s.control.next)))
      else None
    case ResetsDone =>
      if s.control.Canceling? && s.control.reset == {} then Some(s.(control := Draining(s.control.next))) else None
    case Drain(shard) => if s.control.Draining? && Ready(s, shard) then Some(Receive(s, shard)) else None
    case Drained =>
      if s.control.Draining? && s.current.InProgress? && s.current.waiting == {}
      then Some(s.(control := if s.control.next.Some? then NewEpoch(s.control.next.value) else Stopped)) else None
    case NewDump(tracked) =>
      if !s.control.NewEpoch? then None
      else if tracked == {} then Some(s.(control := Select, current := Done(s.control.epoch)))
      else Some(s.(control := UploadHeaders(FreshPrep(n, s.control.epoch, tracked), false)))
  }

  function Next(n: PartCount, s: State, l: Label): Option<State> {
    match l
    case Environment(env) => NextEnvironment(s, env)
    case Prepare(prepare) => NextPrepare(n, s, prepare)
    case Loop(loop) => NextSelect(n, s, loop)
    case Cancel(cancel) => NextCancel(n, s, cancel)
    case TaskStep(id, shard, part, ok) => NextTaskStep(s, id, shard, part, ok)
    case SendDone(id, shard) => NextSend(s, id, shard)
  }
}
