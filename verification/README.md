# nearcore: models of its stateful parts

Dafny models of parts of nearcore that keep state over many steps or must be undone exactly, with proofs of what they
promise. `dafny verify dfyconfig.toml` checks everything; no file assumes anything that is not written as a `requires`.

| files | what they model |
|---|---|
| `StateDump`, `StateDumpSafety`, `StateDumpRuns`, `StateDumpOutcomes`, `StateDumpRecords`, `StateDumpProgress`, `StateDumpLoops` | the state-sync dumper: one control loop, one upload task per state part, foreign uploads, crashes and restarts, as a labelled transition system, and its loops as methods |
| `Borsh`, `BorshLaws`, `BorshLayout`, `BorshSerializer` | the duck-typed Borsh codec of the Python library, as functions, byte by byte, and as the class that fills and reads a buffer |
| `LightClient`, `LightClientLaws`, `LightClientFormat` | light-client block validation: hashes, the stake threshold, the growing map of block producers |
| `AutoXz` | the download writer that recognises an XZ stream by its first six bytes |
| `Seats` | seat price search, genesis validators and the upgrade schedule of the mocknet library |
| `PartialTrie`, `Nibbles`, `EntitySerializer`, `Printing` | two producers of entity-debug trees: partial tries with their encoded paths, and any serde value |
| `AccountNonces`, `Nayduck`, `Tracing` | nonce refresh with swap removal, test-list includes, trace collection and grouping |

The central results:

- **Dumper.** One invariant is kept by every step of every party (`StepInv`). Over every run, `AllDumped` means that the
  header and all parts are stored (`AllDumpedIsComplete`); a canceled task takes at most two more steps and completes at
  most the upload that was in flight (`CanceledTaskWindsDown`). An epoch is reported done only when every shard tracked for it
  is stored, or was persisted as skipped (`DoneIsComplete`); a new head leads to a dump of all tracked shards of its epoch
  (`HeadChangeLeadsToEpoch`, `CancellationRemembersWhy`, `NewEpochIsDumped`). From every reachable state in which a dump is active, a running
  dump can still be finished (`DumpCanFinish`) and a cancellation still be completed (`CancelCanFinish`).
  "No old task is live when uploads start" is false: the loop cancels its dump on a stop and on a new epoch, but not when it
  returns an error, so a second start in the same process can meet old tasks (`ErrorExitLeavesTasks`). The starts after an
  error exit are clean if and only if no task was live at the exit (`NextStartsAreCleanIff`). The dumper's interface allows
  a second start (`stop` and then `start` again, `nearcore/src/state_sync.rs:60-61` and `137-139`); the node itself starts its
  dumper once (`nearcore/src/lib.rs:521`), so it takes another caller to get there.
- **Borsh.** Reading undoes writing at any offset for every value the writer accepts, up to an explicit normal form
  (`ReadUndoesWrite`), and exactly for well-typed values; encodings of one type are prefix-free. What is written for each type is also stated without
  the level-by-level definitions, in terms of digits and concatenation (`BorshLayout`). "Writing undoes reading" is
  false, since the reader takes any nonzero tag for a present option (`TagIsNotKept`, `PresentNoneIsNotKept`). It holds if and
  only if every option has tag 0, or tag 1 and payload bytes that do not stand for `None` (`WriteUndoesReadIffCanonical`);
  without options of options or of empty tuples, if and only if every tag is 0 or 1 (`WriteUndoesReadIffTagsAreBits`).
- **Light client.** No hash function is assumed injective: each binding theorem ends in equality or in a named pair of
  colliding strings. Two conflicting blocks with quorums expose signers of more than a third of the stake
  (`ConflictingBlocksExposeSigners`); every list of producers ever held is linked to the initial one by a chain of quorums
  (`EveryListIsLinked`). The hash binds the lists themselves for all accounts without a zero byte
  (`NextBpHashBindsProducers`, `ZeroFreeListsAreComparable`), and not in general (`ZeroBytesUnbind`). A call accepts a block
  if and only if it is approved and commits to the producers it announces, and then adds exactly these (`AcceptedIffAndAdds`).
  The bytes hashed for a producer are its Borsh form if and only if the account has five bytes (`BpIsBorshIff`).
- **Downloads.** A stream without the XZ magic is saved unchanged, and one with it is decoded, for every way of cutting it
  into chunks (`Save`). Finish is called once, so the file is the decoded stream if and only if what is left at that point fits
  into one buffer (`FileIsDecodedIffRestFits`). With a library that reads the last byte offered only when nothing decoded is
  left to write this always holds (`NothingIsLeft`). For an arbitrary library that decodes it does not: the file can then
  depend on the cut (`CutsCanMatter`, with a made-up library). Which of the two `xz2` is, is not part of this model.
- **Traces.** The profile shows exactly the matching spans of the stored requests that have a span ending after the window
  begins and a span beginning before it ends (`Profile`).
- **Tries.** The root search succeeds if and only if no value hides the root (`RootIsFoundIff`); then the display is the trie,
  with `(missing)` at the missing references; reading the display of a whole trie gives back every key and value
  (`PageShowsContents`), and it determines the trie (`ShowDeterminesTrie`). On an arbitrary bag of
  blobs the display panics if and only if child references lead from the only unlisted hash to a stored blob that is no node,
  or a leaf or an extension with an empty byte string for its path (`ParseAndSerialize`, `SerializeNodePanicsIff`,
  `EmptyPathPanics`).

Where code and comments disagree the code is followed. The comment on `parts_missing` (`nearcore/src/state_sync.rs:243-245`)
says it holds the stored parts; it holds their complement. The light client's approval message and producer list use one byte
for the height and a constant 5 for the account length; so no block above height 253 is accepted (`QuorumBoundsHeight`), and
only the zero byte behind an account says where it ends (`AccountsAreConfusedIff`).

Parameters that stand for the outside world: SHA-256, base58, UTF-8 and ed25519; the XZ library; hashing and the binary form of trie nodes;
answers of nodes and of the external storage; random draws; file contents. The order in which tasks run, responses arrive or hash
maps are traversed is always arbitrary.

## Model

| member | source | states |
|---|---|---|
| StateDump.PartIds | nearcore/src/state_sync.rs:718-731 | the initial `parts_missing` holds exactly the part numbers below the count |
| StateDump.MissingPartIds | nearcore/src/state_sync.rs:200-234 | a part is missing if and only if it is in range and not in the listing |
| StateDumpLoops.GetMissingPartIds | nearcore/src/state_sync.rs:200-234 | the set operations on a listing in any order and with repetitions compute that complement |
| StateDumpLoops.ChainStore.CheckOldProgress | nearcore/src/state_sync.rs:658-678 | in any iteration order: exactly the entries of other epochs are deleted, exactly the finished shards leave headers, parts and senders together |
| StateDumpLoops.ChainStore.RecordDumping | nearcore/src/state_sync.rs:864-880 | every shard of the new dump is recorded as in progress, other entries stay |
| StateDumpLoops.GetDumpState | nearcore/src/state_sync.rs:738-789 | one header, one full set of missing parts and one sender per tracked shard; nothing when none is tracked |
| StateDumpLoops.ObtainPart | nearcore/src/state_sync.rs:414-445 | the first retry loop: ends with the part, with the cancellation, or after a whole budget of failed calls |
| StateDumpLoops.PutPart | nearcore/src/state_sync.rs:455-482 | the second: ends counted, canceled, or after a whole budget of failed calls |
| StateDumpLoops.UploadStatePart | nearcore/src/state_sync.rs:407-483 | the two retry loops only take steps of the transition system's task, for any cancellations and failures; they return only in its final states, and give up only after a whole budget of rounds in which the call was made and failed |
| StateDumpSafety.CountUpdate | nearcore/src/state_sync.rs:390-401 | changing one task changes the number of finished tasks by exactly that task |
| StateDumpSafety.StartRunInv | nearcore/src/state_sync.rs:805-860 | a shard starts with all tasks waiting and a counter of zero in its invariant, also with no parts at all |
| StateDumpSafety.StepRunInv | nearcore/src/state_sync.rs:407-483 | one task step keeps the shard's invariant: a task that finished with its part present has its file stored |
| StateDumpSafety.SentIsComplete | nearcore/src/state_sync.rs:487-516 | a shard that reported without being canceled has every part stored |
| StateDumpSafety.TaskStepInv | nearcore/src/state_sync.rs:407-483 | a task of any dump, running, canceled or left behind, keeps the whole invariant |
| StateDumpSafety.SendDoneInv | nearcore/src/state_sync.rs:487-516 | the report of a shard keeps the whole invariant |
| StateDumpSafety.EnvironmentInv | nearcore/src/state_sync.rs:1059-1093 | the whole invariant survives foreign uploads, crashes, restarts and dropped progress entries |
| StateDumpSafety.AfterInitInv | nearcore/src/state_sync.rs:884-911 | startup keeps the invariant, with senders equal to the shards still to be dumped |
| StateDumpSafety.HeaderPutInv | nearcore/src/state_sync.rs:571-602 | a header upload keeps the invariant; a header counts as stored only when it is |
| StateDumpSafety.InitListedInv | nearcore/src/state_sync.rs:268-288 | taking over a listing that may be old keeps the invariant: parts outside `parts_missing` are stored |
| StateDumpSafety.StartUploadsInv | nearcore/src/state_sync.rs:805-860 | the start of uploads keeps the invariant, with the earlier dumps still in it |
| StateDumpSafety.PartsUploadedInv | nearcore/src/state_sync.rs:914-944 | recording `AllDumped` keeps the invariant, in particular that recorded shards are completely stored |
| StateDumpSafety.RefreshWriteInv | nearcore/src/state_sync.rs:268-288 | overwriting `parts_missing` with an older listing while tasks read it keeps the invariant |
| StateDumpSafety.AfterCancelInv | nearcore/src/state_sync.rs:309-321 | setting `canceled` while tasks run keeps the invariant |
| StateDumpSafety.ResetCounterInv | nearcore/src/state_sync.rs:309-321 | setting a counter to -1 while tasks count keeps the invariant |
| StateDumpSafety.CollectedIsQuiescent | nearcore/src/state_sync.rs:291-306 | once no shard of a dump is awaited, none of its tasks is live |
| StateDumpSafety.FailInv | nearcore/src/state_sync.rs:1037-1049 | an error exit keeps the invariant and leaves its dump in the history of leaked ones |
| StateDumpSafety.StepInv | nearcore/src/state_sync.rs:1001-1057 | every step of every party keeps the invariant |
| StateDumpRuns.Reachable | nearcore/src/state_sync.rs:1001-1057 | every state of every run satisfies the invariant |
| StateDumpRuns.StorageGrows | nearcore/src/state_sync.rs:407-483 | no run ever loses a stored file |
| StateDumpRuns.AllDumpedIsComplete | nearcore/src/state_sync.rs:914-944 | a shard recorded as dumped has its header and all parts stored, then and ever after |
| StateDumpRuns.RestartSkipsOnlyComplete | nearcore/src/state_sync.rs:884-911 | a restart leaves a tracked shard out only if it is completely stored, or was persisted as skipped |
| StateDumpRuns.FinishedDumpIsComplete | nearcore/src/state_sync.rs:928-944 | when the current dump becomes done, every one of its shards is completely stored |
| StateDumpOutcomes.StartDumpsWhatIsNeeded | nearcore/src/state_sync.rs:884-911 | a start dumps exactly the tracked shards not recorded as dumped or skipped for the epoch, with all their headers and parts to be looked at, and forgets exactly the progress of other epochs; with nothing to dump the epoch is done |
| StateDumpOutcomes.NewEpochIsDumped | nearcore/src/state_sync.rs:983-992 | a new epoch is dumped for all its tracked shards, each with a sender, its header and all its parts; it is done at once only without any |
| StateDumpOutcomes.HeadChangeLeadsToEpoch | nearcore/src/state_sync.rs:961-982 | a head of another epoch cancels the running dump for that epoch, or starts that epoch; a head of the current epoch changes nothing |
| StateDumpOutcomes.StopLeadsToStopped | nearcore/src/state_sync.rs:1001-1057 | a stop cancels the running dump for no epoch, or stops at once |
| StateDumpOutcomes.CancellationRemembersWhy | nearcore/src/state_sync.rs:309-321 | over every run: a cancellation goes on for the same purpose, and ends at the new epoch it was started for, or stopped |
| StateDumpOutcomes.DoneIsComplete | nearcore/src/state_sync.rs:884-994 | over every run: whenever an epoch is reported done, at a start, at a new epoch or after the last report, every shard tracked for it is stored completely or was persisted as skipped |
| StateDumpOutcomes.DumpIsAboutTracked | nearcore/src/state_sync.rs:884-994 | over every run: while a dump is in progress, every shard tracked for its epoch is in it, or is so settled |
| StateDumpOutcomes.StorageGainsUploads | nearcore/src/state_sync.rs:407-602 | a step stores a file if and only if it is a successful upload of that header or part |
| StateDumpOutcomes.ListingIsTakenOver | nearcore/src/state_sync.rs:268-288 | a listing makes exactly its complement the missing parts of its shard, and of no other |
| StateDumpOutcomes.RefreshTakesOverListing | nearcore/src/state_sync.rs:268-288 | the same for the periodic listing of a running dump, which changes nothing else |
| StateDumpRecords.UploadsStartAsPrepared | nearcore/src/state_sync.rs:805-860 | uploads start with one waiting task per part, the missing parts as prepared and nothing counted; earlier dumps are untouched |
| StateDumpRecords.ProgressChangesOnlyBy | nearcore/src/state_sync.rs:658-944 | for every step, what the persisted progress of a shard is afterwards: a crash, a cancellation or a task never changes it |
| StateDumpRecords.ProgressFollowsDump | nearcore/src/state_sync.rs:864-944 | over every run: while a dump is in progress, each of its shards is persisted as in progress while it is awaited, and as dumped once it has reported |
| StateDumpRecords.CountersAreReset | nearcore/src/state_sync.rs:309-321 | over every run: while a cancellation waits for its tasks, the counter of every shard it waits for is -1 |
| StateDumpRecords.RefreshVisitsEveryShard | nearcore/src/state_sync.rs:268-288 | over every run: a periodic listing ends only after the listing of every shard awaited when it began was taken over or given up |
| StateDumpRuns.SelectAwaitsSomething | nearcore/src/state_sync.rs:291-306 | `select_all` is never called on an empty set, and each awaited shard belongs to the dump |
| StateDumpRuns.AwaitedShardIsNotStuck | nearcore/src/state_sync.rs:487-516 | an awaited shard has reported, can report, or has a task that can step |
| StateDumpRuns.NothingLeaks | nearcore/src/state_sync.rs:1037-1056 | without error exits no dump is left behind |
| StateDumpRuns.UploadsStartWithSenders | nearcore/src/state_sync.rs:805-814 | whenever uploads start, in any run, the senders are exactly the shards of the dump, and there is one |
| StateDumpRuns.UploadsStartClean | nearcore/src/state_sync.rs:805-860 | without error exits no task of an earlier dump is live when uploads start |
| StateDumpRuns.LiveTasksAreLeaked | nearcore/src/state_sync.rs:805-860 | in any run, a task that is live when uploads start belongs to a dump left behind by an error |
| StateDumpRuns.ErrorExitLeavesTasks | nearcore/src/state_sync.rs:1037-1056 | every error exit with a live task can be followed by a second start in the same process whose uploads start while that task is live |
| StateDumpRuns.SomeErrorExitHasTasks | nearcore/src/state_sync.rs:864-880 | such exits are reachable: writing the progress fails right after the tasks were started |
| StateDumpRuns.NextStartsAreCleanIff | nearcore/src/state_sync.rs:1037-1056 | after an error exit, all later starts of uploads up to the next failure find no old task live, if and only if none was live at the exit |
| StateDumpRuns.StepFrame | nearcore/src/state_sync.rs:407-483 | a task moves only by its own steps; cancellation and a counter of -1 are permanent |
| StateDumpRuns.CanceledTaskWindsDown | nearcore/src/state_sync.rs:309-321 | after cancellation the steps taken and the steps left add up to at most two, at most the `put_file` in flight completes, and a counter of -1 stays |
| StateDumpRuns.CounterCountsFinishedTasks | nearcore/src/state_sync.rs:390-401 | until cancellation `parts_dumped` is the number of finished tasks; it never exceeds the number of parts |
| StateDumpProgress.BringReady | nearcore/src/state_sync.rs:487-516 | any awaited shard can be brought to report by steps of its own tasks, with the loop unmoved |
| StateDumpProgress.DumpCanFinish | nearcore/src/state_sync.rs:914-944 | from every reachable state with a running dump, while it is recorded, selected or refreshed, the epoch can be completed, recording exactly the awaited shards as dumped |
| StateDumpProgress.CancelCanFinish | nearcore/src/state_sync.rs:309-321 | from every reachable state of a cancellation, counters reset or not, it can be completed without touching recorded progress |
| StateDumpProgress.ActiveIsRunningOrCanceled | nearcore/src/state_sync.rs:1001-1057 | the two cover every reachable state in which a dump is active |
| StateDumpProgress.StepRunWorks | nearcore/src/state_sync.rs:407-483 | a successful step of a task always leaves less work for its shard |
| Borsh.NumRoundTrip | pytest/lib/serializer.py:28-42 | reading a written number returns it, in exactly the given number of bytes |
| Borsh.NumCanonical | pytest/lib/serializer.py:28-42 | writing a read number returns the bytes |
| Borsh.Shape | pytest/lib/serializer.py:44-87 | what one level writes, and that the fields it hands on are smaller |
| BorshLaws.HeadUndoesShape | pytest/lib/serializer.py:89-129 | one level: the reader plans exactly the fields the writer handed on |
| BorshLaws.ObjectHeadUndoesShape | pytest/lib/serializer.py:131-195 | the same for structs and enums, whose tag is the position of the variant |
| BorshLaws.ReadUndoesWrite | pytest/lib/serializer.py:44-195 | at any offset and in any context, reading what was written returns the normal form and stops at its end |
| BorshLaws.ReadAllUndoesWrite | pytest/lib/serializer.py:131-195 | the same for the fields of a struct, a tuple or a list |
| BorshLaws.WriteIsInjective | pytest/lib/serializer.py:44-87 | equal bytes come from values with equal normal forms |
| BorshLaws.WriteIsPrefixFree | pytest/lib/serializer.py:44-87 | no encoding of a type is a proper prefix of another of that type |
| BorshLaws.TypedIsNormal | pytest/lib/serializer.py:44-87 | a well-typed value is accepted and is its own normal form |
| BorshLaws.TypedRoundTrip | pytest/lib/serializer.py:197-207 | a well-typed value is read back unchanged, between any bytes before and after it |
| BorshLaws.ShapeUndoesHead | pytest/lib/serializer.py:44-195 | one level: the writer hands on exactly the fields that were read, and the same prefix |
| BorshLaws.NoneIsVisible | pytest/lib/serializer.py:89-129 | a value is read as `None` if and only if its bytes stand for it, by type and tags alone |
| BorshLaws.WriteUndoesReadIffCanonical | pytest/lib/serializer.py:44-195 | for all input: the value read is written again as the bytes read, if and only if every option on the way has tag 0, or tag 1 and payload bytes that do not stand for `None`; otherwise some byte differs |
| BorshLaws.WriteAllUndoesReadAll | pytest/lib/serializer.py:156-195 | the same for a list of fields |
| BorshLaws.WriteUndoesReadIffTagsAreBits | pytest/lib/serializer.py:44-195 | where no option's payload is an option or an empty tuple: the bytes come back if and only if every option tag read is 0 or 1 |
| BorshLaws.TagIsNotKept | pytest/lib/serializer.py:89-129 | inputs that do not come back: any tag above 1 is written as 1 |
| BorshLaws.PresentNoneIsNotKept | pytest/lib/serializer.py:89-129 | inputs that do not come back: a present option around an absent one, or around an empty tuple, is written as absent |
| BorshLayout.NumIsLittleEndian | pytest/lib/serializer.py:28-33 | each byte of a written number is its digit to the base 256, the lowest first |
| BorshLayout.NumFitsIff | pytest/lib/serializer.py:28-33 | a number is written if and only if it is below that power of 256 |
| BorshLayout.UIntIs | pytest/lib/serializer.py:56-57 | numbers, and a bool as 0 or 1; anything else is refused |
| BorshLayout.StringIs | pytest/lib/serializer.py:58-61 | the number of bytes, then the bytes |
| BorshLayout.ListIs | pytest/lib/serializer.py:71-74 | the number of elements, then the elements in order, also for a tuple given as a list |
| BorshLayout.TupleIs | pytest/lib/serializer.py:45-51 | the elements in order, also for a list given as a tuple |
| BorshLayout.TupleFails | pytest/lib/serializer.py:45-51 | a wrong number of elements is refused, and so is an element that is |
| BorshLayout.BytesAsListIs | pytest/lib/serializer.py:71-74 | bytes given for a list of numbers: their number, then the bytes in order |
| BorshLayout.LoopedOver | pytest/lib/serializer.py:45-74 | bytes and strings given for any list or tuple type count as the list of their numbers or letters |
| BorshLayout.RefusedIs | pytest/lib/serializer.py:44-87 | what has no length is no list or tuple, and an object is written by its own class alone |
| BorshLayout.OptionIs | pytest/lib/serializer.py:75-81 | a zero, or a one and the value |
| BorshLayout.StructIs | pytest/lib/serializer.py:131-154 | the attributes in the order of the schema |
| BorshLayout.StructFails | pytest/lib/serializer.py:131-154 | a missing attribute is refused, and so is one that its type refuses |
| BorshLayout.EnumIs | pytest/lib/serializer.py:131-154 | the position of the first variant of that name, then the attribute of that name |
| BorshLayout.BytesReadAsList | pytest/lib/serializer.py:89-129 | bytes written as a list of numbers are read back as these numbers in order, in any context |
| BorshLayout.BoolReadAsNumber | pytest/lib/serializer.py:89-129 | a bool written as a number is read back as 0 or 1 |
| BorshLayout.ListReadAsTuple | pytest/lib/serializer.py:89-129 | a list written as a tuple is read back as the tuple of its elements |
| BorshSerializer.BinarySerializer.ReadBytes | pytest/lib/serializer.py:20-26 | the next bytes and the advanced offset, or a failure beyond the end |
| BorshSerializer.BinarySerializer.SerializeNum | pytest/lib/serializer.py:28-33 | appends the number, and fails exactly when it is negative or too large |
| BorshSerializer.BinarySerializer.DeserializeNum | pytest/lib/serializer.py:35-42 | the loop from the most significant byte computes the little-endian number |
| BorshSerializer.BinarySerializer.SerializeEach | pytest/lib/serializer.py:44-87 | the loop over items appends their encodings in order, and fails exactly when one of them does |
| BorshSerializer.BinarySerializer.SerializeItems | pytest/lib/serializer.py:44-87 | the branches for tuples and lists: a wrong length fails, a list is preceded by its length |
| BorshSerializer.BinarySerializer.SerializeField | pytest/lib/serializer.py:44-87 | appends the encoding to the buffer, and fails exactly when there is none |
| BorshSerializer.BinarySerializer.SerializeStruct | pytest/lib/serializer.py:131-154 | the same for an object, by the schema of its class |
| BorshSerializer.BinarySerializer.Serialize | pytest/lib/serializer.py:197-199 | on a fresh buffer returns the encoding of the object |
| BorshSerializer.BinarySerializer.DeserializeField | pytest/lib/serializer.py:89-129 | returns the decoded value and leaves the offset behind it |
| BorshSerializer.BinarySerializer.DeserializeStruct | pytest/lib/serializer.py:156-195 | the same for an object |
| BorshSerializer.BinarySerializer.DeserializeFields | pytest/lib/serializer.py:156-195 | the loop that reads and sets attributes, also where a name repeats |
| BorshSerializer.BinarySerializer.Deserialize | pytest/lib/serializer.py:201-207 | succeeds exactly when a value ends at the last byte |
| LightClient.Client.ValidateBlock | pytest/lib/lightclient.py:59-158 | outcome and producers are those of the specification, in every branch, including raised errors |
| LightClient.TallyApprovals | pytest/lib/lightclient.py:84-109 | total and approved stake, unless some present approval does not verify |
| LightClient.SerializeNextBps | pytest/lib/lightclient.py:125-147 | the bytes of the list, failing where a byte does not fit |
| LightClient.AppendBps | pytest/lib/lightclient.py:129-145 | the loop appends the producers in order, and fails exactly when one of them does |
| LightClientLaws.MessageBindsFields | pytest/lib/lightclient.py:33-51 | equal inner-header bytes mean eight equal fields |
| LightClientLaws.BlockHashBindsContents | pytest/lib/lightclient.py:33-55 | equal block hashes mean equal contents, or one of three named pairs of strings collides |
| LightClientLaws.StakeOverlap | pytest/lib/lightclient.py:84-115 | two sets of producers overlap in at least the excess of their stakes over the total |
| LightClientLaws.QuorumsIntersect | pytest/lib/lightclient.py:111-115 | two approval vectors above the rounded-down threshold share more than a third of the stake |
| LightClientLaws.AcceptedHasQuorum | pytest/lib/lightclient.py:59-115 | a block passes if and only if its epoch is expected and known and more than two thirds of the stake signed it |
| LightClientLaws.QuorumBoundsHeight | pytest/lib/lightclient.py:102-109 | a quorum exists only for heights up to 253 |
| LightClientLaws.MessageBindsContents | pytest/lib/lightclient.py:63-109 | equal approval messages mean equal heights and contents, or a collision |
| LightClientLaws.ConflictingBlocksExposeSigners | pytest/lib/lightclient.py:59-115 | two quorums for different contents: each of more than a third of the stake signed two different messages, or a collision |
| LightClientLaws.AccountsAreConfusedIff | pytest/lib/lightclient.py:129-145 | two different accounts can be written as the same bytes, with some keys, stakes and continuations, if and only if one goes on with a zero byte where the other ends |
| LightClientLaws.BpIsPrefixFree | pytest/lib/lightclient.py:129-145 | with or without version byte, a producer's bytes are recognised in front of any others, unless the accounts are of that kind |
| LightClientLaws.NextBpHashBindsProducers | pytest/lib/lightclient.py:124-158 | equal `next_bp_hash` means equal lists, unless two accounts at one position are of that kind, or a collision |
| LightClientLaws.ZeroFreeListsAreComparable | pytest/lib/lightclient.py:124-158 | accounts without a zero byte, of any and mixed lengths, never are |
| LightClientLaws.ZeroBytesUnbind | pytest/lib/lightclient.py:129-145 | with zero bytes in accounts: two different lists of two producers with 32-byte keys and the same bytes |
| LightClientLaws.TwoListsWithTheSameBytes | pytest/lib/lightclient.py:129-145 | two such lists, written out |
| LightClientLaws.LengthsAreNotWritten | pytest/lib/lightclient.py:135-141 | with keys of different lengths: two different single producers with the same bytes |
| LightClientLaws.OnlyAcceptedBlocksAdd | pytest/lib/lightclient.py:117-158 | producers change only with an accepted block of the next epoch |
| LightClientLaws.StepAdds | pytest/lib/lightclient.py:117-158 | a new list was committed to by a header that the producers of its epoch approved |
| LightClientLaws.EveryListIsLinked | pytest/lib/lightclient.py:59-158 | over every run, every list held at any time is linked to the initial map by a chain of quorums |
| LightClientLaws.AcceptedIffAndAdds | pytest/lib/lightclient.py:57-158 | the whole call, both ways: a block is accepted if and only if it is approved and, in the next epoch, commits to the producers it announces; then exactly these are added, and in every other case nothing changes |
| LightClientLaws.RaisedIffMalformed | pytest/lib/lightclient.py:57-158 | a call raises if and only if a hash, an epoch, a signature or a byte is not one; with `panic` also wherever it would reject |
| LightClientLaws.InnerLiteLayout | pytest/lib/lightclient.py:14-51 | the eight fields of the inner header in their order, two 64-bit numbers and six digests |
| LightClientLaws.BlockHashIs | pytest/lib/lightclient.py:33-54 | the digest of the inner header with the rest, then with the previous hash |
| LightClientLaws.ApprovalLayout | pytest/lib/lightclient.py:102-109 | the signed bytes carry the height plus two as a 64-bit number, for heights up to 253 alone |
| LightClientFormat.NextBlockHashIs | pytest/lib/lightclient.py:61-66 | the signed hash is that of the next inner hash with the block's own hash |
| LightClientFormat.ApprovalIsVerified | pytest/lib/lightclient.py:94-109 | an approval counts if and only if its signature of the next hash and of the height plus two verifies with the producer's key, both in base58 behind `ed25519:` |
| LightClientFormat.BpIsBorshIff | pytest/lib/lightclient.py:129-145 | with or without version byte: a producer is written as Borsh does, if and only if the account has five bytes |
| LightClientFormat.BpsAreBorsh | pytest/lib/lightclient.py:125-147 | with such accounts the list is written as Borsh does, up to 255 producers; from 256 on it is refused |
| AutoXz.AutoXzDecoder.constructor | nearcore/src/download_file.rs:143-149 | starts probing, with nothing received |
| AutoXz.AutoXzDecoder.Probe | nearcore/src/download_file.rs:182-207 | for any split of the stream: undecided while it is a proper prefix of the magic, plain once it disagrees, compressed once the magic is complete; returns how much was held back |
| AutoXz.AutoXzDecoder.Decompress | nearcore/src/download_file.rs:232-264 | all of the chunk reaches the decoder, and the file holds all that it produced; the end is announced once; it fails only when the library errs, and gives up only after a whole budget of calls, which never happens with a library that reads on |
| AutoXz.AutoXzDecoder.WriteAllImpl | nearcore/src/download_file.rs:211-219 | plain bytes are appended, compressed ones decoded |
| AutoXz.AutoXzDecoder.WriteAll | nearcore/src/download_file.rs:151-159 | every received byte is accounted for: held back, written or decoded; anything but success needs the magic and an error of the library or a spent budget |
| AutoXz.AutoXzDecoder.FinishStream | nearcore/src/download_file.rs:162-174 | without the magic the file is the stream, otherwise what the decoder made of all of it |
| AutoXz.Save | nearcore/src/download_file.rs:77-81 | the same for the download loop, for every way of splitting the stream into chunks; with a library that decodes, the file is the decoded stream if and only if what is left when Finish is called fits into one buffer, and always so with one that also flushes |
| AutoXz.FileIsDecodedIffRestFits | nearcore/src/download_file.rs:232-264 | Finish is called once: the file is a prefix of the decoded stream, and all of it if and only if the rest fits into one buffer |
| AutoXz.NothingIsLeft | nearcore/src/download_file.rs:232-264 | with a library that reads the last byte offered only when nothing decoded is left to write, the file is the decoded stream for every cut |
| AutoXz.CutsCanMatter | nearcore/src/download_file.rs:232-264 | the calls allow more: one stream cut in two ways, with a made-up library that decodes and does not flush, gives one file that is the decoded stream and one that is a third shorter |
| Seats.SeatsAntitone | pytest/lib/mocknet.py:1369-1377 | a higher price never sells more seats, which the search relies on |
| Seats.AffordIs | pytest/lib/mocknet.py:1369-1371 | the seats a stake buys cost no more than it, and one more seat would |
| Seats.DescendingIs | pytest/lib/mocknet.py:1384-1385 | seats never increase along the rows, nor stakes among equal seats, nor names among equal stakes |
| Seats.SortIsRight | pytest/lib/mocknet.py:1384-1385 | the sort is a descending permutation that keeps seats and stakes |
| Seats.FindSeatPrice | pytest/lib/mocknet.py:1360-1378 | the binary search returns the least price at which the seats fit |
| Seats.ComputeSeats | pytest/lib/mocknet.py:1360-1385 | rows for exactly the given stakes, each with the seats that its stake buys at that price, in descending order, selling at most the seats there are |
| Seats.GenesisValidators | pytest/lib/mocknet.py:698-709 | the `break` never fires: the validators are exactly the stakers |
| Seats.StartUpgraded | pytest/lib/mocknet.py:1322-1331 | the greedy loop takes the longest prefix that it can, also where names repeat |
| Seats.UpgradeSchedule | pytest/lib/mocknet.py:1319-1339 | exactly the names of that prefix start upgraded, all others follow within four epochs; with distinct names they hold at most 75% of the seats |
| Seats.ScheduleRest | pytest/lib/mocknet.py:1333-1339 | every remaining validator gets an epoch from 1 to 4, and none that starts upgraded loses it |
| Seats.UpgradedAreEarly | pytest/lib/mocknet.py:1322-1331 | the seats that start upgraded are those of the prefix, and of later rows that repeat a name of it |
| Nibbles.EncodeNibbles | core/store/src/trie/nibble_slice.rs:127-139 | the loop writes an encoding that decodes to the same path and flag, and is canonical |
| Nibbles.DecodeUndoesEncode | core/store/src/trie/nibble_slice.rs:84-86 | decoding an encoded path returns the path, of odd or even length, and whether it ends in a leaf |
| Nibbles.EncodeUndoesDecodeIff | core/store/src/trie/nibble_slice.rs:84-139 | encoding a decoded path returns the bytes, if and only if the two top bits are clear and an unused low half of the first byte is zero |
| Nibbles.PackedSpellsPath | core/store/src/trie/nibble_slice.rs:127-139 | the bytes behind the first one, printed, are the text of the path |
| Nibbles.NibblesFromHex | nearcore/src/entity_debug.rs:640-646 | the loop reads one nibble per character, and fails at the first that is no digit |
| Nibbles.PathOfIs | nearcore/src/entity_debug.rs:640-646 | a text is read if and only if all its characters are digits, and each nibble is the value of its digit |
| Nibbles.PathIsReadBack | nearcore/src/entity_debug.rs:635-646 | `nibbles_from_hex` undoes `nibbles_to_hex` for every path |
| Printing.HexIsReadBack | nearcore/src/entity_debug.rs:791-798 | reading two digits to a byte, front to back, undoes the display of every value |
| Printing.HexNumberIsReadBack | nearcore/src/entity_debug.rs:766-768 | reading digits to the base 16 undoes the name of every position of a branch, which has no leading zero |
| PartialTrie.RemoveListed | nearcore/src/entity_debug.rs:713-716 | the inner loop removes exactly the listed hashes |
| PartialTrie.FindRoot | nearcore/src/entity_debug.rs:700-721 | for any bag of blobs: the one hash that no blob lists, or none if there is not exactly one |
| PartialTrie.SameBlobSameTrie | nearcore/src/entity_debug.rs:686-696 | equal node blobs of one trie carry equal subtries |
| PartialTrie.RootIsNoChild | nearcore/src/entity_debug.rs:698-699 | no node of a trie refers to its root |
| PartialTrie.OnlyRootIsUnlisted | nearcore/src/entity_debug.rs:698-699 | nothing but the root can be found |
| PartialTrie.RootIsFoundIff | nearcore/src/entity_debug.rs:706-710 | the root is found if and only if no value decodes as a node listing it, or hashes to it |
| PartialTrie.ShowDeterminesTrie | nearcore/src/entity_debug.rs:747-798 | two whole tries are displayed alike if and only if they are equal |
| PartialTrie.PageShowsContents | nearcore/src/entity_debug.rs:747-798 | reading the page of a whole trie, collecting digits on the way down, gives every key of the trie with its value, in order, and nothing else |
| PartialTrie.UnfoldShows | nearcore/src/entity_debug.rs:747-788 | hashes of a trie, with its paths encoded as the code does, unfold to that trie, with `(missing)` at exactly the references that are not stored |
| PartialTrie.SerializeNode | nearcore/src/entity_debug.rs:747-788 | in any bag: follows references to their end, and panics where a stored blob is no node or has an empty path; of a trie it shows every key and value (`UnfoldShows`, `PageShowsContents`) |
| PartialTrie.RenderedFailsIff | nearcore/src/entity_debug.rs:753-786 | a stored blob makes `serialize_node` panic by itself if and only if it is no node, or a leaf or an extension with an empty byte string for its path |
| PartialTrie.SerializeNodePanicsIff | nearcore/src/entity_debug.rs:747-788 | it panics if and only if child references lead to such a blob |
| PartialTrie.EmptyPathPanics | nearcore/src/entity_debug.rs:756-756 | one such bag: a single leaf whose path is the empty byte string |
| PartialTrie.SerializeChildren | nearcore/src/entity_debug.rs:765-769 | the children of a branch in order, each under its digit, unless one of them panics |
| PartialTrie.ParseAndSerialize | nearcore/src/entity_debug.rs:662-684 | for any bag: the error page with all blobs unless exactly one hash is unlisted; otherwise what that hash unfolds to, or the panic |
| PartialTrie.PartialStateIsShown | nearcore/src/entity_debug.rs:662-684 | for part of a trie: no panic, and the trie is shown under `root` unless a value hides the root |
| PartialTrie.RawNodes | nearcore/src/entity_debug.rs:676-680 | one entry per stored blob |
| EntitySerializer.Commit | nearcore/src/entity_debug_serializer.rs:72-74 | pushes one entry under the serializer's key |
| EntitySerializer.StructSerializer.PushChild | nearcore/src/entity_debug_serializer.rs:80-88 | the next element is named by its position |
| EntitySerializer.StructSerializer.CommitChildren | nearcore/src/entity_debug_serializer.rs:99-109 | commits the collected children as one value, inside the variant's name if there is one |
| EntitySerializer.Serialize | nearcore/src/entity_debug_serializer.rs:112-312 | for every value: exactly one entry is pushed onto the parent, the tree of the value, and earlier entries stay |
| EntitySerializer.SerializeItems | nearcore/src/entity_debug_serializer.rs:314-330 | elements of sequences and tuples, named by position |
| EntitySerializer.SerializePairs | nearcore/src/entity_debug_serializer.rs:332-370 | map entries named by their displayed keys; a key that is no text gets a fixed name |
| EntitySerializer.SerializeFields | nearcore/src/entity_debug_serializer.rs:372-389 | fields under their names |
| EntitySerializer.SerializeEntity | nearcore/src/entity_debug_serializer.rs:468-475 | there always is an entry to return, and it is the tree |
| EntitySerializer.TreeKeepsEveryScalar | nearcore/src/entity_debug_serializer.rs:112-464 | every scalar and every empty container is displayed once, in order, under exactly the variants, fields, keys and positions that lead to it, and nothing else is |
| Printing.DecimalIsReadBack | nearcore/src/entity_debug_serializer.rs:80-88 | reading decimal digits undoes the name of every array element, which has no leading zero |
| AccountNonces.SwapRemove | benchmarks/synth-bm/src/account.rs:204-206 | removes exactly one element: the last one takes its place, and no other moves |
| AccountNonces.RemoveOne | benchmarks/synth-bm/src/account.rs:204-206 | what is kept shrinks by exactly the account at the index |
| AccountNonces.Sort | benchmarks/synth-bm/src/account.rs:203-204 | strictly ascending, with the same indices |
| AccountNonces.RemoveAll | benchmarks/synth-bm/src/account.rs:203-206 | in descending order each index still names its own account: exactly the failed ones go |
| AccountNonces.UpdateAccountNonces | benchmarks/synth-bm/src/account.rs:152-209 | for every completion order: every account that answered survives once with its own nonce; an error exactly when failures count and there is one |
| Nayduck.ReadTests | scripts/nayduck.py:185-211 | the generator yields the expansion, for every file system |
| Nayduck.ReadAllTests | scripts/nayduck.py:176-213 | the listed lines are at depth 1, relative to the given directory, and not commented out |
| Nayduck.IncludeReads | scripts/nayduck.py:194-207 | an include reads the named file relative to the directory of the file it stands in, whose lines are read relative to its own directory, one level deeper, and commented out below a hash sign; at depth 4 nothing is read |
| Nayduck.OtherLineIs | scripts/nayduck.py:194-211 | every other line: tests are kept or commented out, comments and empty lines appear only where comments are asked for |
| Nayduck.TrailingSpaceIsIgnored | scripts/nayduck.py:193-193 | white space at the end of a line changes nothing |
| Nayduck.ExpandIsFlat | scripts/nayduck.py:192-211 | the output is what the lines contribute, in order |
| Nayduck.CommentedIncludeIsComment | scripts/nayduck.py:207-213 | everything below a commented include is a comment, at any depth |
| Nayduck.PlainIsUncommented | scripts/nayduck.py:194-213 | the plain list is the list with comments, without comments and empty lines; also with cyclic includes |
| Tracing.Export | tracing/src/collector.rs:36-56 | the index holds the earliest start and the latest end; only a request without spans is refused |
| Tracing.OverlappingSpanIsRetrieved | tracing/src/queries.rs:145-151 | a request with a span that overlaps the window is retrieved |
| Tracing.RetrievedIffTouches | tracing/src/queries.rs:145-151 | an indexed request is retrieved if and only if some span ends after the window begins and some span begins before it ends |
| Tracing.RetrievedAreTouching | tracing/src/queries.rs:145-163 | what is retrieved from the store are exactly these requests, in order |
| Tracing.LastStringIs | tracing/src/queries.rs:77-86 | the last string under the key decides, and without one the default |
| Tracing.LastIntIs | tracing/src/queries.rs:88-97 | the same for numbers |
| Tracing.MatchedIff | tracing/src/queries.rs:164-184 | a span is matched if and only if it belongs to some resource and passes the filter, in the group of its node and thread |
| Tracing.SpanMarkersAre | tracing/src/queries.rs:218-251 | an interval from start to end and one instant per event, in nanoseconds since the window begins |
| Tracing.Matches | tracing/src/queries.rs:76-106 | the last matching attributes give node and thread, an empty filter lets everything pass |
| Tracing.StringTableBuilder.Insert | tracing/src/profile.rs:219-228 | one index per distinct string, and indices handed out earlier keep their meaning |
| Tracing.RawMarkerTable.Add | tracing/src/profile.rs:236-269 | a reader of the columns sees one more marker and the old ones unchanged |
| Tracing.CollectAll | tracing/src/queries.rs:164-184 | each group holds exactly its matching spans, in order of arrival |
| Tracing.PutKeepsGrouping | tracing/src/queries.rs:170-180 | one more span goes to one group and to no other |
| Tracing.EmittedIsAll | tracing/src/queries.rs:215-254 | emission group by group loses nothing and invents nothing, in any order of groups |
| Tracing.EmitSpan | tracing/src/queries.rs:218-251 | one interval and one instant per event are added |
| Tracing.EmitAll | tracing/src/queries.rs:215-254 | the nested loops emit the groups one after the other, each with all of its spans |
| Tracing.ProfileOf | tracing/src/queries.rs:164-254 | a reader of the profile sees exactly one interval per matching span of the given requests and one instant per event |
| Tracing.RetrievalLosesNothing | tracing/src/queries.rs:145-184 | what is retrieved by the index includes every matching span that overlaps the window, as often as it is stored, and nothing that is not stored |
| Tracing.Profile | tracing/src/queries.rs:143-254 | from stored traces to the columns of the profile: every marker comes from a matching span of a request that has a span ending after the window begins and one beginning before it ends, and every such span is shown; among them all that overlap the window |

## Left out

- Protocol code (chain, doomslug, epoch manager, runtime, trie storage, garbage collection, network): not modelled.
- Configuration, command line, RPC, metrics, logging and the front ends: mostly straight-line code without state to reason about.
- Dumper, in place: the dumper is concurrent, so it is modelled on values as a transition system; the loops inside its steps are methods.
- Dumper, storage: files are names; contents, a partial file after a failed write, and deletion by an operator are not modelled.
- Dumper, memory model: the relaxed flag `canceled` is read in the order of the steps.
- Dumper, scheduling: the limits of five buffered tasks and four permits are dropped, which only adds interleavings.
- Dumper, naming: epoch heights, sync hashes and the digits in file names are not modelled; the number of parts is fixed per epoch and shard.
- Dumper, fairness: that a finishing run exists is proved, that every fair run finishes is not.
- StateDumpSafety.EnvironmentInv: handles and the thread around the loop are reduced to crash, stop and restart.
- StateDumpLoops.UploadStatePart: a budget bounds the rounds of each retry loop, since the source's loops may retry forever.
- BorshSerializer.BinarySerializer.SerializeField: bytes written before a failure are not specified, only that earlier ones stay.
- BorshSerializer.BinarySerializer.DeserializeField: a bound on object nesting stands for Python's recursion limit.
- Borsh.Shape: values are None, numbers, booleans, strings, bytes, lists, tuples and objects; other Python iterables are not modelled.
- LightClientLaws.NextBpHashBindsProducers: keys have 32 bytes and stakes 128 bits; `AccountsAreConfusedIff` is exact for one producer and any continuation, for whole lists the other direction is the family of `ZeroBytesUnbind`.
- LightClientFormat.BpsAreBorsh: for whole lists the bytes are compared one way, with five-byte accounts; the equivalence is proved for each producer (`BpIsBorshIff`).
- LightClient.Client.ValidateBlock: stakes are natural numbers and versions arrive parsed; malformed JSON is not modelled.
- AutoXz.AutoXzDecoder.Decompress: a budget bounds the loop, since a library that neither reads nor fails would keep it going; file errors are not modelled.
- Seats.UpgradeSchedule: re-creating the stakes, RPC nodes and the non-progressive branch are not modelled.
- PartialTrie.ParseAndSerialize: following references from the root ends; with a cycle of hashes the source recurses without end.
- EntitySerializer.Serialize: numbers and characters arrive as their printed form.
- AccountNonces.UpdateAccountNonces: the rate limit and writing accounts to disk are not modelled.
- Nayduck.ReadTests: the warning about the depth limit and errors of the file reader are not modelled.
- Tracing.Profile: times are integers in nanoseconds, payloads are given as text, and scope spans are flattened into their resource.
