# Verification of the small state machines of Local Desktop

Local Desktop is an Android app that runs a Linux root file system behind a Wayland
compositor built on a vendored smithay. Most of it talks to Android, GPUs and clients.
This project models the parts that are machines of their own, and proves what they promise
for every input, every run and every interleaving. `dafny verify dfyconfig.toml` checks it.

| file | what it models |
|---|---|
| `AppendList.dfy` | the heap of nodes of the lock-free append-only list; the list and its iterator as objects |
| `UserDataMap.dfy` | cells; any number of threads appending, iterating and looking up, one atomic access per step; the type map as an object |
| `InsertingCalls.dfy` | calls of `get_or_insert` and `insert_if_missing` on several threads |
| `Signaling.dfy`, `Signaler.dfy` | the re-entrant signal dispatcher, as steps and as an object whose callbacks do anything |
| `Text.dfy`, `Config.dfy`, `ConfigFile.dfy` | string operations, the configuration pass, the file on disk |
| `ArchFs.dfy` | download, extract and rename of the root file system, with crashes |
| `Scheduler.dfy`, `Webview.dfy`, `SetupProgress.dfy` | the staged setup, the progress channel, and both together |
| `Serial.dfy`, `Hooks.dfy` | wrapping serials and their counter; unique hook ids |
| `Refresh.dfy`, `Cursor.dfy`, `Clock.dfy` | refresh rate, animated cursor, time arithmetic |
| `Prelude.dfy`, `Arithmetic.dfy` | shared types and facts |

A concurrent machine is a state, a datatype of atomic actions, `Enabled` and `Apply`; a run
is any sequence of enabled actions, so a statement about all runs is one about all
interleavings. Objects keep the fields of the source and are proved against those machines
or against a specification given by predicates.

What the model takes for granted:

- Atomic accesses and critical sections under a mutex are single steps, in a sequentially
  consistent order.
- Callbacks, stages, network, archive contents, TOML acceptance and clients are arbitrary:
  they are parameters or nondeterministic steps.
- On disk a rename is atomic, a successful unpack has written the whole tree, and an archive
  that was cut off does not unpack. Removing the extraction directory may fail or stop half way.
- A sound archive unpacks. An uninterrupted start further assumes that a sound archive comes
  after finitely many rounds with bad ones, in which cleaning and removing may fail and
  unpacking may write anything (`ArchFs.SoundInTheEnd`).
- Later stages, and the desktop they install, may write and remove anything below the root.
- Reading the root directory does not fail when the directory is populated.
- 32-bit arithmetic of the cursor wraps, as in release builds.

Six things the code does not do, although its names or documentation suggest them, each
with the exact condition under which it does:

- `elapsed` gives zero instead of a huge duration exactly when the second time is not the
  earlier one (`Clock.SaturatesExactlyWhenLater`).
- `next_serial` never issues 0 exactly when there is one thread, or too few calls to reach
  the end of the range (`Serials.ZeroIsNeverIssuedExactly`); in one run it issues 0 exactly
  by a draw right after that of `u32::MAX` by another thread (`Serials.ZeroIsIssuedExactly`).
- `get_or_insert` never panics, in any interleaving, exactly if no two calls on different
  threads both find nothing, one of which cannot see the cell of the other: it takes the last
  cell of the list for its own (`InsertingCalls.NeverPanicsExactly`).
- A value is inserted only if it is missing, in any interleaving, exactly if no two calls on
  different threads both find nothing although one could see the cell of the other
  (`InsertingCalls.NeverDoublesExactly`).
- The web view is told how a setup ended exactly when the first failing stage fails in its
  task. One that panics while it is called on the background thread ends that thread without
  any message, since only the join is checked (`Scheduler.EndIsAnnouncedExactly`).
- When defaults replace a malformed configuration file, the old text is kept exactly when
  the file could be renamed or nothing was written; a failed renaming is only logged before
  the file is overwritten (`ConfigFile.OldTextSurvivesExactly`).

## Model

| member | source | states |
|---|---|---|
| `AppendList.LinkExtends` | patches/smithay/src/utils/user_data.rs:274-281 | the one successful exchange turns the list into list + appended chain, still null-terminated |
| `AppendList.SharedList.AppendPtr` | patches/smithay/src/utils/user_data.rs:274-288 | the retry loop ends, with any number of spurious failures, having put the chain at the end and changed no value |
| `AppendList.SharedList.AppendValues` | patches/smithay/src/utils/user_data.rs:267-294 | the values are at the end of the list, as a block and in order |
| `AppendList.AppendListIterator.Next` | patches/smithay/src/utils/user_data.rs:332-346 | yields the next value of the list; `None` only once all of the list was yielded |
| `UserDataCells.AnswerIsStable` | patches/smithay/src/utils/user_data.rs:126-133 | the first visible match is unique and is not changed by anything appended later |
| `UserDataCells.SetOnceKeepsFirst` | patches/smithay/src/utils/user_data.rs:57-70 | the first value set is the one its readers get, a later one changes nothing |
| `ConcurrentUserData.StepKeeps` | patches/smithay/src/utils/user_data.rs:274-346 | every atomic step of every thread keeps the heap invariant, only lengthens the list, and is a step of the sequential list |
| `ConcurrentUserData.Linearizable` | patches/smithay/src/utils/user_data.rs:267-346 | for every interleaving the answers of all calls are those of one sequential list, each append acting as a block at its exchange |
| `ConcurrentUserData.ListOnlyGrows` | patches/smithay/src/utils/user_data.rs:267-294 | the list is acyclic and null-terminated in every reachable state and a prefix of the list in every later state |
| `ConcurrentUserData.NodesAreConserved` | patches/smithay/src/utils/user_data.rs:267-294 | each node ever created is on the list or in the unpublished chain of exactly one call |
| `ConcurrentUserData.NodesOccurOnce` | patches/smithay/src/utils/user_data.rs:267-294 | no node occurs twice on the list or in an unpublished chain |
| `ConcurrentUserData.NoDanglingPointer` | patches/smithay/src/utils/user_data.rs:274-346 | the raw pointers that appends and iterators dereference always refer to nodes |
| `ConcurrentUserData.IteratorSeesPrefix` | patches/smithay/src/utils/user_data.rs:332-346 | what an iterator has yielded is a prefix of the current list, whatever is appended meanwhile; its load gives null exactly when it is the whole list of that instant |
| `ConcurrentUserData.ReaderAdvances` | patches/smithay/src/utils/user_data.rs:332-346 | each load of a reader answers with the value of the next cell if the lookup sees it, else yields that cell; at the end a lookup answers nothing and an iterator has given all |
| `ConcurrentUserData.ReadersAnswer` | patches/smithay/src/utils/user_data.rs:126-133 | left alone, a lookup or an iteration that begins in any reachable state ends after at most one load per cell and one more, with the answer for the whole list |
| `ConcurrentUserData.DropEndsReader` | patches/smithay/src/utils/user_data.rs:326-346 | dropping a reader ends it and touches nothing else |
| `ConcurrentUserData.ExchangeAdvances` | patches/smithay/src/utils/user_data.rs:274-288 | a non-spurious attempt publishes the chain at the end or moves one node further along |
| `ConcurrentUserData.LookupsAgree` | patches/smithay/src/utils/user_data.rs:126-133 | once `get::<T>` on a thread returned a value, every later one on that thread returns it, under concurrent inserts |
| `UserDataMap.UserDataMap.Get` | patches/smithay/src/utils/user_data.rs:126-133 | the value of the first cell visible to the thread and type, or none if no cell is |
| `UserDataMap.UserDataMap.Insert` | patches/smithay/src/utils/user_data.rs:200-212 | one initialised cell is appended |
| `UserDataMap.UserDataMap.InsertIfMissing` | patches/smithay/src/utils/user_data.rs:163-198 | returns true and inserts exactly when nothing visible was there; then the value is what is found (one call at a time) |
| `UserDataMap.UserDataMap.GetOrInsert` | patches/smithay/src/utils/user_data.rs:135-161 | never panics, returns the value then found, inserts only if there was none (one call at a time) |
| `UserDataMap.InsertionEffect` | patches/smithay/src/utils/user_data.rs:78-91 | what any other type or thread sees after an insertion, given what it saw before |
| `InsertingCalls.StepIsSpecRun` | patches/smithay/src/utils/user_data.rs:126-212 | every step of such calls is what the linearized list does at one instant |
| `InsertingCalls.StepKeeps` | patches/smithay/src/utils/user_data.rs:126-212 | every step of calls on several threads keeps what is known of cells, their authors and the calls in progress |
| `InsertingCalls.NeverPanicsExactly` | patches/smithay/src/utils/user_data.rs:136-161 | no interleaving of the calls panics, if and only if no call on another thread that finds nothing inserts a cell which one that finds nothing cannot see |
| `InsertingCalls.AnswersAreOnTheList` | patches/smithay/src/utils/user_data.rs:126-161 | in every interleaving an answered value is in a cell that the call can see, and a call that inserted has its cell on the list |
| `InsertingCalls.FoundIsAnswer` | patches/smithay/src/utils/user_data.rs:136-141 | what the look-up of a call finds is its answer, and it inserts exactly if nothing was found |
| `InsertingCalls.HiddenCallPanics` | patches/smithay/src/utils/user_data.rs:136-161 | otherwise an append between the append and the search of another call makes the `unwrap` fail |
| `InsertingCalls.NeverDoublesExactly` | patches/smithay/src/utils/user_data.rs:172-198 | no interleaving inserts beside a visible value, if and only if no two calls on different threads both find nothing of which one could see the cell of the other |
| `Signaling.StepKeeps` | patches/smithay/src/utils/signaling.rs:134-183 | every step of a dispatch or of user code keeps the invariant over lists, queues, deliveries and their order |
| `Signaling.HistoryIsWhatHappened` | patches/smithay/src/utils/signaling.rs:58-67 | the recorded signals, registrations, live callbacks and popped events are those of the run |
| `Signaling.BornWhenRegistered` | patches/smithay/src/utils/signaling.rs:62-67 | a registration is recorded with the number of events popped before it |
| `Signaling.IdleIsDrained` | patches/smithay/src/utils/signaling.rs:149-183 | both pending queues are empty whenever no dispatch is running |
| `Signaling.LiveIsHeldOnce` | patches/smithay/src/utils/signaling.rs:134-183 | a live registration is in exactly one of the two lists, once, and is never pruned |
| `Signaling.DroppedReceivesNothing` | patches/smithay/src/utils/signaling.rs:88-104 | after its token is dropped a callback never gets another event, and until then it got every one due to it: the event being delivered exactly if its turn had come |
| `Signaling.EveryInboxIsExact` | patches/smithay/src/utils/signaling.rs:134-183 | in every reachable state, in the middle of a dispatch too, every registration has got exactly the events from its registration to now or to its drop |
| `Signaling.RegisteredDuringDelivery` | patches/smithay/src/utils/signaling.rs:58-67 | a callback registered during event k gets k+1, k+2, ... in order and never k: all of them up to now while it lives, and all up to its drop if it is dropped |
| `Signaling.DispatchIsFlatQueue` | patches/smithay/src/utils/signaling.rs:149-183 | the whole log of deliveries is that of a flat queue: events in signal order, each to the callbacks registered before and not dropped before their turn, in registration order |
| `Signalers.Signaler.Register` | patches/smithay/src/utils/signaling.rs:62-67 | a new live registration, in the list or in the pending list when the list is borrowed |
| `Signalers.Signaler.DropToken` | patches/smithay/src/utils/signaling.rs:88-96 | the callback is dead from then on, nothing else changes |
| `Signalers.Signaler.Send` | patches/smithay/src/utils/signaling.rs:149-183 | nested: only queues; outermost: terminates for finitely many signals, drains both queues, takes exactly the steps that the queue and the scripts of the invoked callbacks determine, and the whole log is that of the flat queue |
| `Signalers.EndIsUnique` | patches/smithay/src/utils/signaling.rs:149-183 | those steps have one possible end |
| `Signalers.DispatchAddsWhatScriptsSay` | patches/smithay/src/utils/signaling.rs:149-183 | a dispatch signals and registers exactly what its callback invocations do, one invocation per delivery; nothing when they do nothing |
| `Signalers.Signaler.RunCallback` | patches/smithay/src/utils/signaling.rs:168-170 | a callback does the deeds of its script, in order and no others |
| `Signalers.Signaler.Dispatch` | patches/smithay/src/utils/signaling.rs:163-177 | one event delivered, pending callbacks merged; signals still to come plus queued events go down |
| `Signalers.Signaler.Retain` | patches/smithay/src/utils/signaling.rs:167-174 | visits all callbacks in order, keeping those that could be upgraded |
| `Signalers.Signaler.Call` | patches/smithay/src/utils/signaling.rs:168-170 | in every state in which a callback comes to be called no cell is borrowed, so its own can be, and it is released again |
| `Text.LinesOfUnlines` | src/core/config.rs:145-154 | lines written with a newline each are read back as the same lines |
| `Text.LinesAreTheText` | src/core/config.rs:100 | lines with their ends, of which only the last may be missing, are the text again, character for character |
| `Text.UnlinesIsText` | src/core/config.rs:145-154 | lines are written with one newline each |
| `Text.TrimIs` | src/core/config.rs:100-105 | trimming takes all white space off both ends and nothing else |
| `Config.PrefixIsKey` | src/core/config.rs:112-115 | the search for the prefix `k=` is equality of keys, since keys contain no `=`, and the value is what follows |
| `Config.ParseIsText` | src/core/config.rs:102-125 | in the text of a line: key before the first `=`, value all that follows it, both trimmed; `try_` copies taken off the key make it an override, which is written back as a comment |
| `Config.ParseIsVerbatim` | src/core/config.rs:137-141 | a line without `=` stands for itself |
| `Config.ParseOfEntry` | src/core/config.rs:106-136 | written entries and overrides are read back as the same key and value |
| `Config.ValueIsUnique` | src/core/config.rs:25-26 | last `try_` line, else first plain line: at most one value |
| `Config.Override` | src/core/config.rs:110-122 | a `try_` entry replaces the line of its key, or is appended |
| `Config.InsertIfNew` | src/core/config.rs:123-136 | a plain entry is appended only if its key is not there |
| `Config.ProcessLines` | src/core/config.rs:94-142 | the in-place pass computes the reference configuration, and writes back each line, overrides commented out |
| `Config.EffectiveIsUnique` | src/core/config.rs:94-162 | the reference configuration is determined by the lines |
| `Config.OneEntryPerKey` | src/core/config.rs:24-27 | each mentioned key has exactly one effective entry, with the last `try_` value, else the first plain one; no other key has one |
| `Config.PlaceOfLine` | src/core/config.rs:99-142 | other lines keep their order, a key stands where it first occurs |
| `Config.RewriteIsFixpoint` | src/core/config.rs:100-154 | the rewritten file splits into the written lines, a second pass changes none, and no override is left |
| `Config.OverrideLastsOnce` | src/core/config.rs:89-93 | at the next start every key has the first plain value of the original file again |
| `ConfigFile.ConfigFile.SaveDefault` | src/core/config.rs:164-193 | nothing is written below an empty root; otherwise the defaults, after the old file was renamed; a failed renaming does not stop it, a failed write panics |
| `ConfigFile.OldTextSurvivesExactly` | src/core/config.rs:179-192 | the text that defaults replace is still on disk exactly when there is no root, the renaming worked or nothing was written, chance equalities aside |
| `ConfigFile.CutOffLeavesPrefix` | src/core/config.rs:145-154 | a write that is cut off leaves a prefix of the text |
| `ConfigFile.FailedRenameLosesText` | src/core/config.rs:179-192 | the failing case: the renaming fails, the write works, the text is gone |
| `ConfigFile.ConfigFile.Process` | src/core/config.rs:94-162 | effective lines of the file, and the file rewritten as far as the write gets; defaults are saved when the file is missing or cannot be read |
| `ConfigFile.ConfigFile.Parse` | src/core/config.rs:195-205 | the accepted text, or the defaults with the rewritten file renamed; a missing or unreadable file reads as the empty text once defaults are saved; panics exactly when a write of the defaults fails |
| `ConfigFile.JoinedIsEffective` | src/core/config.rs:195-198 | the text given to TOML splits into the effective lines again, but for an empty last one |
| `ConfigFile.JoinedIsWritten` | src/core/config.rs:195-198 | the joined lines have one newline between them |
| `ConfigFile.UserTextIsKeptExactly` | src/core/config.rs:195-205 | when the user text, rewritten or not, is still on disk after a start |
| `ConfigFile.SecondStartWritesTheSame` | src/core/config.rs:144-154 | rewriting the rewritten file gives the same text |
| `ArchFs.StepKeeps` | src/android/proot/setup.rs:54-159 | every step, crashes included, keeps the invariant and everything below the root except what it removes itself |
| `ArchFs.NonEmptyIsComplete` | src/android/proot/setup.rs:61-157 | over any number of interrupted starts a non-empty root holds the whole tree, and keeps what it holds, except for entries that later stages or the saving of the configuration removed since the last rename |
| `ArchFs.OnlyRenamePopulates` | src/android/proot/setup.rs:150-152 | an empty root becomes non-empty only by renaming a completely extracted tree, or after later stages had removed the whole tree |
| `ArchFs.NotExtractedAgain` | src/android/proot/setup.rs:61-62 | a non-empty root is not extracted again unless all it held was removed |
| `ArchFs.RenameIsNeverBlocked` | src/android/proot/setup.rs:150-152 | when the rename is due its target is missing or empty |
| `ArchFs.CrashAnywhere` | src/android/proot/setup.rs:54-159 | a crash can come at any step, leaves the disk as it is, and the next start goes on from there |
| `ArchFs.SoundDownloadSuffices` | src/android/proot/setup.rs:67-148 | when bad archives can be removed, one sound download later on is enough |
| `ArchFs.Installer.TryArchive` | src/android/proot/setup.rs:67-148 | a round with a sound archive ends ready to rename, exactly the tree if the cleaning worked; a round with a bad one goes back to the check, with or without the archive |
| `ArchFs.Installer.SetupArchFs` | src/android/proot/setup.rs:54-159 | an uninterrupted stage ends with a complete root and no leftovers, whatever finitely many bad archives unpack and however the cleanings go; a populated root is left alone |
| `ArchFs.StartAfterAnything` | src/android/proot/setup.rs:61-157 | after any history of interrupted starts, an uninterrupted one ends with a complete root if it was empty, else with all it held, which is the tree but for what was removed since the last rename |
| `Scheduler.PercentFits` | src/android/proot/setup.rs:359-370 | the progress arithmetic overflows for no stage exactly up to 655 stages |
| `Scheduler.PercentIsShare` | src/android/proot/setup.rs:359-370 | a percentage v of stage j of n is the share rounded down: v n <= 100 j < (v + 1) n |
| `Scheduler.PercentIsMonotone` | src/android/proot/setup.rs:359-381 | percentages grow with the stage and reach 100 only at the end |
| `Scheduler.Setup.Run` | src/android/proot/setup.rs:352-415 | Wayland exactly when all stages had nothing to do, on the main thread; aborts exactly when the first stage with anything to do panics; else ends in success or stops at the first failing stage; stages in order and on the right thread, each background one announced with its percentage; progress monotone and 100 only when all are through; its end is announced exactly when the first failing stage does not panic when called |
| `Scheduler.StagesAreAnnounced` | src/android/proot/setup.rs:367-381 | a background stage is announced by its share, a joined task is followed by the share that includes it |
| `Scheduler.Setup.Background` | src/android/proot/setup.rs:357-393 | the background thread ends in success, or stops at the first failing stage (with one error if its task failed, silently if the call panicked), with progress 100 exactly on success |
| `Scheduler.Setup.Finish` | src/android/proot/setup.rs:383-392 | when all stages are through: 100, then the final message |
| `Scheduler.Setup.Join` | src/android/proot/setup.rs:362-366 | a failed task yields one error message and nothing after it |
| `Scheduler.EndIsAnnouncedExactly` | src/android/proot/setup.rs:340-393 | an error or the final message is sent exactly when the first failing stage, if any, fails in its task rather than when called |
| `Scheduler.SilentSetup` | src/android/proot/setup.rs:352-393 | a setup whose second stage panics when called ends without any message and below 100 |
| `Webview.StepKeeps` | src/android/backend/webview.rs:26-82 | every step of the accept thread, the forwarding threads and the setup keeps the invariant |
| `Webview.HistoryIsWhatHappened` | src/android/backend/webview.rs:26-82 | messages are numbered by the sends, taken by the fetches, offered by the writes of the run |
| `Webview.ConnectionIsAccepted` | src/android/backend/webview.rs:28-51 | a connection with the right protocol becomes active with a waiting thread exactly if no client is; any other changes nothing |
| `Webview.OneClientIsServed` | src/android/backend/webview.rs:28-35 | at most one forwarding thread waits for or serves a client, that of the active client |
| `Webview.WriteGoesToOwnClient` | src/android/backend/webview.rs:70-79 | a thread that writes finds its own client active; an error makes no client active |
| `Webview.OfferCarriesWhatWasRead` | src/android/backend/webview.rs:54-72 | an offer carries the progress of the moment its thread read it |
| `Webview.MessagesAreOfferedOnceInOrder` | src/android/backend/webview.rs:54-80 | each message is taken once, in send order, and offered to one client by its own thread; delivered progress never falls, across clients |
| `Webview.LossIsBounded` | src/android/backend/webview.rs:72-79 | a message taken is delivered, in hand or that of a failed send; each connection fails at most once, that of the active client not at all |
| `Webview.WaitingMessageIsOffered` | src/android/backend/webview.rs:54-80 | while a client is active and a message waits, a forwarding thread can step, each such step brings the next offer nearer, at most five of them, and nothing else sets it back |
| `Webview.ThreadLeavesClosedChannel` | src/android/backend/webview.rs:53-54 | when the setup has hung up and all is taken, the thread leaves and releases the receiver |
| `SetupProgress.ReportsAreAccepted` | src/android/proot/setup.rs:357-393 | the reports of any setup meet the web view's assumption about progress, however its threads interleave |
| `SetupProgress.EachReportIsThere` | src/android/proot/setup.rs:357-393 | the sequence of reports has each progress of the log after those before it, and nothing else |
| `Serials.SerialCmpIsAntisymmetric` | patches/smithay/src/utils/serial.rs:22-37 | the order is antisymmetric and consistent with equality |
| `Serials.SerialCounter.NextSerial` | patches/smithay/src/utils/serial.rs:90-95 | draws the circular successor, skipping 0 |
| `Serials.LaterIsCyclic` | patches/smithay/src/utils/serial.rs:90-95 | serials drawn in turn run through 1 to `u32::MAX` in a circle |
| `Serials.NewerExactlyInWindow` | patches/smithay/src/utils/serial.rs:22-59 | a serial drawn k draws later is newer exactly for k below `u32::MAX / 2`, and for the next two k when the counter wrapped |
| `Serials.WindowIsTotallyOrdered` | patches/smithay/src/utils/serial.rs:22-59 | any window shorter than that is totally ordered in draw order |
| `Serials.DrawsAreDistinct` | patches/smithay/src/utils/serial.rs:90-95 | in every interleaving of the two accesses any 2^32 - 1 consecutive draws are pairwise different |
| `Serials.CallsInTurn` | patches/smithay/src/utils/serial.rs:90-95 | calls that do not overlap draw in circular order and never 0 |
| `Serials.OverlapCanIssueZero` | patches/smithay/src/utils/serial.rs:90-95 | from any start, any two threads can issue 0: one draws up to the end of the range within a call of the other |
| `Serials.ZeroIsNeverIssuedExactly` | patches/smithay/src/utils/serial.rs:90-95 | threads `ts` making up to n calls never issue 0, in any interleaving, if and only if there is at most one thread or n does not reach the end of the range |
| `Serials.ZeroIsIssuedExactly` | patches/smithay/src/utils/serial.rs:90-95 | a run issues 0 if and only if the access right after the draw of `u32::MAX` is another thread drawing |
| `Hooks.FirstFreeIsUnique` | patches/smithay/src/utils/ids.rs:19-26 | the first free id in cyclic order is unique |
| `Hooks.SomeIdIsFree` | patches/smithay/src/utils/ids.rs:15-21 | below the size limit a free id exists, so the search ends |
| `Hooks.StepKeeps` | patches/smithay/src/utils/hook.rs:31-53 | creating, cloning and dropping hooks, and removing an id after the last drop, keep id set and hooks in step |
| `Hooks.HandlesAreCounted` | patches/smithay/src/utils/hook.rs:22-53 | a hook has one handle, one more per clone, one less per drop; its id is in the set while a handle is left and until it is removed |
| `Hooks.LiveHooksAreDistinct` | patches/smithay/src/utils/hook.rs:5-7 | live hooks compare equal exactly when they are clones |
| `Hooks.RegisteredIsLive` | patches/smithay/src/utils/hook.rs:40-53 | the registered ids are exactly those of live hooks and of hooks whose last clone is dropped but whose id is not yet removed |
| `Hooks.NoReissueBeforeWrap` | patches/smithay/src/utils/ids.rs:19-26 | no id is issued again, even after its hook is gone, before the counter went around |
| `Hooks.Registry.Next` | patches/smithay/src/utils/ids.rs:12-27 | the loop ends with the first free id from the counter; it panics exactly on a full set |
| `Hooks.Registry.NewHook` | patches/smithay/src/utils/hook.rs:31-47 | a hook with a fresh id, registered |
| `Hooks.Registry.CloneHook` | patches/smithay/src/utils/hook.rs:22-29 | a clone shares the id |
| `Hooks.Registry.DropHook` | patches/smithay/src/utils/hook.rs:49-53 | the id is released with the last clone, and only then |
| `Refresh.TwoStageRounding` | patches/smithay/src/output.rs:91-96 | the two integer divisions give the rate within half a step |
| `Refresh.RateIsExact` | patches/smithay/src/output.rs:96 | the first division rounds down, the second to the nearest, ties up |
| `Refresh.NoOverflow` | patches/smithay/src/output.rs:92-100 | no intermediate value leaves 64 bits |
| `Refresh.FlagsScaleRate` | patches/smithay/src/output.rs:98-110 | interlacing doubles the rate, double scanning halves it, scanning lines n times divides it by n |
| `Refresh.CastKeepsExactly` | patches/smithay/src/output.rs:112-115 | the final cast keeps exactly the values below 2^31 |
| `Refresh.AsI32IsLowBits` | patches/smithay/src/output.rs:112-115 | the cast is the signed value of the low 32 bits |
| `Refresh.FromDrmMode` | patches/smithay/src/output.rs:89-116 | the rate of the two divisions, which is within half a step, scaled by the flags with one rounding down; division by zero exactly for zero totals |
| `Cursor.NearestImages` | patches/smithay/anvil/src/cursor.rs:51-61 | all images with the dimensions of the first nearest one, in order |
| `Cursor.OfDimensionsIs` | patches/smithay/anvil/src/cursor.rs:58-60 | the selection is the images with those dimensions, each once, in order |
| `Cursor.DistanceIsPlain` | patches/smithay/anvil/src/cursor.rs:55 | the wrapping distance of two sizes is the plain one exactly when they are less than 2^31 apart |
| `Cursor.Frame` | patches/smithay/anvil/src/cursor.rs:63-78 | the image whose interval contains the time modulo the total; never unreachable |
| `Cursor.ShownIsUnique` | patches/smithay/anvil/src/cursor.rs:70-75 | exactly one image at any time |
| `Cursor.AnimationIsPeriodic` | patches/smithay/anvil/src/cursor.rs:64-68 | the animation repeats with the total delay |
| `Cursor.EachImageHasItsDelay` | patches/smithay/anvil/src/cursor.rs:64-75 | in a round each image is shown for its own delay |
| `Clock.PlusIsExact` | patches/smithay/src/utils/clock.rs:199-211 | adding keeps the normal form and adds nanoseconds exactly |
| `Clock.CmpIsByNanos` | patches/smithay/src/utils/clock.rs:137-148 | times compare as their nanoseconds |
| `Clock.ElapsedIsExact` | patches/smithay/src/utils/clock.rs:182-198 | a later time is at its exact distance, the borrow never underflows |
| `Clock.ElapsedAfterPlus` | patches/smithay/src/utils/clock.rs:61-66 | elapsed after adding d is d |
| `Clock.SaturatesExactlyWhenLater` | patches/smithay/src/utils/clock.rs:182-198 | the result is the saturating difference exactly when the second time is not earlier |
| `Clock.BackwardsBySecond` | patches/smithay/src/utils/clock.rs:182-198 | one second backwards reads as 2^64 - 1 seconds |

## Left out

- Android, JNI, web view popup, proot processes, HTTP, tar and xz decoding, websocket framing: environment.
- Renderer, DRM, EGL, udev, seats, outputs and their globals, winit: they wrap libraries.
- TOML parsing: the model stops at the effective text. Keys are matched over the whole file, not per section, as in the code.
- InsertingCalls.NeverPanicsExactly: the closure that makes the value is not code of the model; one that calls the same map is left out.
- Dropping lists and cells, and leaking of values on foreign threads.
- Destructors of events or closures that call back into the signaler, panics in callbacks, poisoned mutexes, memory orders weaker than sequential consistency.
- `SignalToken::leak`: a token that is never dropped.
- The simulated `/proc` files, the install loop, the Firefox and xkb stages: their only role here is to be stages that write and remove below the root.
- Scheduler.Setup.Run: runs the background thread to its end after the main thread returns; their interleaving matters only through the progress value, which the web view machine reads at any moment.
- Hooks.Registry.NewHook: the callback stored beside the id is not modelled.
- Clock.PlusIsExact: `as_millis` and `as_micros` are not modelled, they would be easy.
- Refresh.FromDrmMode: the size of the mode is not modelled.
