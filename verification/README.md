# Verified model of opendal-mbt

A Dafny 4.11 model of the parts of opendal-mbt that carry state or bytes across a boundary, with
proofs of what they keep. `dafny verify dfyconfig.toml` checks everything.

## What is modelled

**The browser bridge.** OpenDAL resources live behind generation-checked 32-bit handles. Tasks are
pending, ready, cancelled or consumed; read streams, writers and listers are open, busy or terminal;
a lease ties a task to one operation on one of them. Wasm has one thread, so each export, and each
late publication of a spawned future, is one atomic step, and the concurrency is the order in which
steps come.

- `BridgeTypes`, `HandleArena`, `BridgeSteps`, `BridgeSystem`: the values, the arena as a map, each
  export as a function from state to state, and the system of bridge plus futures in flight with its
  events and runs. The theorems quantify over every sequence of events.
- `SlotArena`, `BridgeState`: the slot vector and the mutable state as classes. Each method is proved
  equal to the step function of the same name, so the theorems are about the state these methods leave.
- `LeaseInvariant`, `TableInvariant`, `BridgeInvariant`: the invariant and that every event keeps it.
- `BridgeProgress`: how runs move forward (issued handles, forward-only tasks, handle budget).
- `BridgeDecisions`, `BridgeStarts`: which calls are granted and which refused, and what each leaves, as
  tables written on the constructors apart from the step functions.
- `BridgeFrame`: what an event can touch. `BridgeTheorems`, `StreamDelivery`, `StreamGap`: the results.

The three stateful resources share one `Stateful` constructor with a kind, and the sixteen completions
are grouped by payload type. The inner OpenDAL objects are identities; a read cursor also carries the
buffers its backend stream has still to yield. Backend answers are nondeterministic choices.

**Text and snapshots.** `Unicode` has the encodings of RFC 3629 and RFC 2781 as reference;
`StubText` the conversions of the native stub and the length computation of the batch facade.
`LittleEndian`, `ErrorSnapshot`, `MetadataSnapshot` and `MetadataDecoder` are the ODE1 and ODM1
formats with the encoders of the bridge and the decoders of the browser runtime.

**The installer.** `Install`, `InstallTheorems`, `InstallRaces` and `InstallOutcomes`: any number of processes stepping
over one cache directory with a lock directory, staging, rename, quarantine, stale-lock eviction and
crashes.

**Native ownership.** `NativeHeap`: which object owns which native pointer, over every run of calls.
`NativeStub`: the objects themselves, with one nullable field per pointer, and the calls that move and
clear them, proved against those steps.

**Build helpers.** `Fingerprint` (input order, duplicate check, hash framing) and `ShellWords`
(quoting and the link line, read back by a model of the shell's word splitting and quote removal).

## Where a promise needs a condition

- Gap-free delivery needs a polite caller: a read is started only when no finished read of the same
  stream is waiting. `StreamDelivery.DeliveryIsGapFree` proves it under that condition.
  `StreamGap.ImpoliteRunHasGap` is a run without it whose deliveries are no prefix of the object, and
  `StreamGap.ImpoliteStartSkips` shows that from every state with a nonempty read waiting and more to
  come, a granted start has a continuation that loses the waiting bytes.
- The browser runtime decodes text with a `TextDecoder` that drops a leading U+FEFF, so a snapshot
  text that starts with it arrives shortened. `ErrorSnapshot.BrowserDecodesEncoded` and
  `MetadataDecoder.BrowserSeesRecord` give the exact condition, `ErrorSnapshot.MarkIsLost` an input.
- One installer at a time needs that nobody finds a stale lock; a crash alone does not break it, and
  neither does a lock that was left behind, until it is stale. `InstallRaces.ExclusionIsLostExactlyWhenStale`
  says that, while no install is complete, this is exact; `InstallRaces.LeftoverLockLetsTwoIn` and `InstallRaces.LeftoverLockDownloadsTwice`
  are failing inputs, and `InstallTheorems.PromptInstallersRespectLocks` gives the usual reason why no lock
  goes stale. That renamed trees are complete holds without any condition.
- The fingerprint framing needs labels without NUL (`Fingerprint.NulLabelsCollide`), and tells labels
  apart only up to lone surrogates (`Fingerprint.LoneSurrogatesCollide`).

## Model

| member | source | states |
|---|---|---|
| HandleArena.PackRoundTrip | wasm/browser-bridge/src/lib.rs:972-983 | every handle the arena can issue packs to a nonzero word below 2^31 that unpacks to it |
| HandleArena.UnpackRoundTrip | wasm/browser-bridge/src/lib.rs:976-983 | every 32-bit word unpacks to one slot and generation and packs back |
| HandleArena.InsertIsFresh | wasm/browser-bridge/src/lib.rs:698-721 | an insert hands out a handle that was never issued before, keeps the arena well formed and forgets no handle that was issued or retired |
| HandleArena.RemoveRetires | wasm/browser-bridge/src/lib.rs:916-938 | a take retires its handle for good, also when the slot runs out of generations, and un-issues no other |
| HandleArena.ReplacementFits | wasm/browser-bridge/src/lib.rs:888-910 | after the capacity check a replacement can always be inserted once the resource is taken, even if its slot retires |
| HandleArena.ReplacementRefusalExact | wasm/browser-bridge/src/lib.rs:888-910 | the capacity check refuses exactly when the replacement would have found no slot |
| HandleArena.InsertSpendsOne | wasm/browser-bridge/src/lib.rs:698-721 | each insert costs one of the inserts the remaining generations allow |
| HandleArena.RemoveSpendsNothing | wasm/browser-bridge/src/lib.rs:985-993 | taking and moving to the next generation costs none |
| SlotArena.LookupRefines | wasm/browser-bridge/src/lib.rs:723-749 | following a handle through index, generation and occupancy is a lookup in the map from handles to resources |
| SlotArena.FillRefines | wasm/browser-bridge/src/lib.rs:699-707 | filling a slot is one update of that map, and adds one live handle when the slot was empty |
| SlotArena.PushRefines | wasm/browser-bridge/src/lib.rs:714-720 | a new slot is one new handle of generation 1 |
| SlotArena.EmptyRefines | wasm/browser-bridge/src/lib.rs:934-936 | emptying a slot under the next generation removes exactly its handle from the map |
| SlotArena.LiveFits | wasm/browser-bridge/src/lib.rs:685-688 | there are never more live handles than slots, so the 32-bit live count cannot overflow |
| SlotArena.Arena.FindReusable | wasm/browser-bridge/src/lib.rs:692-695 | the search returns the first slot that is empty and not retired |
| SlotArena.Arena.CanInsert | wasm/browser-bridge/src/lib.rs:691-696 | true exactly when the next insert succeeds |
| SlotArena.Arena.Insert | wasm/browser-bridge/src/lib.rs:698-721 | the new slot vector stands for the map with one fresh handle added, or nothing changes and the limit is reported; the live count is the size of the map |
| SlotArena.Arena.Lookup | wasm/browser-bridge/src/lib.rs:723-749 | returns what the map holds under the handle, and refuses every other word |
| SlotArena.Arena.LookupKind | wasm/browser-bridge/src/lib.rs:751-886 | the typed accessors: the resource, a stale handle error or a wrong type error |
| SlotArena.Arena.Assign | wasm/browser-bridge/src/lib.rs:737-749 | writing through the exclusive reference changes that one map entry |
| SlotArena.Arena.EnsureInsertCapacityAfterTake | wasm/browser-bridge/src/lib.rs:888-910 | agrees with the exact capacity condition on the map |
| SlotArena.Arena.Take | wasm/browser-bridge/src/lib.rs:916-938 | moves the resource out, retires the handle and lowers the live count, or refuses and changes nothing |
| SlotArena.Arena.Clear | wasm/browser-bridge/src/lib.rs:940-943 | leaves the empty map |
| BridgeState.State.constructor | wasm/browser-bridge/src/lib.rs:946-954 | a new bridge is the empty arena, no error, token zero, not torn down |
| BridgeState.State.Record | wasm/browser-bridge/src/lib.rs:1003-1007 | records the error and touches no resource |
| BridgeState.State.InsertResource | wasm/browser-bridge/src/lib.rs:1950-1958 | refines the checked insert |
| BridgeState.State.InsertBuffer | wasm/browser-bridge/src/lib.rs:1850-1856 | refines the bounded buffer insert |
| BridgeState.State.PushByte | wasm/browser-bridge/src/lib.rs:2071-2083 | refines appending one byte, with its three refusals in the order of the source |
| BridgeState.State.WriteWindow | wasm/browser-bridge/src/lib.rs:2131-2140 | refines a write through the checked window pointer: the window is replaced and the rest of the buffer kept, or one of the four refusals |
| BridgeState.State.AllocateOperation | wasm/browser-bridge/src/lib.rs:956-964 | a new token, never a wrapped one |
| BridgeState.State.Reserve | wasm/browser-bridge/src/lib.rs:1559-1601 | refines the reservation, including the token a refusal spends |
| BridgeState.State.ReserveWith | wasm/browser-bridge/src/lib.rs:1571-1600 | the resource is busy exactly when its task was inserted; every other outcome restores it |
| BridgeState.State.PublishTask | wasm/browser-bridge/src/lib.rs:1085-1094 | completes the task only if it is still pending without a lease |
| BridgeState.State.PublishResourceTask | wasm/browser-bridge/src/lib.rs:1147-1210 | settles the resource and the task only while both still carry the lease |
| BridgeState.State.Terminalize | wasm/browser-bridge/src/lib.rs:1212-1249 | refines giving up a lease; `BridgeDecisions.DroppedWorkFailsItsResource` says which resources that fails |
| BridgeState.State.TaskTake | wasm/browser-bridge/src/lib.rs:2868-2889 | refines the task take |
| BridgeState.State.TaskCancel | wasm/browser-bridge/src/lib.rs:2896-2911 | refines cancellation |
| BridgeState.State.TaskRelease | wasm/browser-bridge/src/lib.rs:2915-2925 | refines the release of a task |
| BridgeState.State.Release | wasm/browser-bridge/src/lib.rs:1960-1963 | refines the release of any other resource |
| BridgeState.State.TakeSuccessful | wasm/browser-bridge/src/lib.rs:3228-3264 | all refusals come before the completion leaves the arena |
| BridgeState.State.TakeOpened | wasm/browser-bridge/src/lib.rs:3019-3054 | refines the takes of streams, writers and listers |
| BridgeState.State.TakeBuffer | wasm/browser-bridge/src/lib.rs:3058-3086 | refines the take of read results and of stream chunks |
| BridgeState.State.TakeMetadata | wasm/browser-bridge/src/lib.rs:3090-3118 | refines the take of metadata; `BridgeDecisions.TakeMetadataDecided` says which completions are granted |
| BridgeState.State.TakeMetadataSnapshot | wasm/browser-bridge/src/lib.rs:3124-3182 | refines the take of a metadata snapshot: the new buffer is what the encoder makes of the metadata taken |
| BridgeState.State.TakeEntryList | wasm/browser-bridge/src/lib.rs:3186-3226 | refines the take of listings and of single entries |
| BridgeState.State.TakeError | wasm/browser-bridge/src/lib.rs:3295-3368 | refines the take of an error |
| BridgeState.State.TakeEntrySnapshot | wasm/browser-bridge/src/lib.rs:3464-3498 | refines the take of an entry snapshot |
| BridgeState.State.TakeErrorSnapshot | wasm/browser-bridge/src/lib.rs:3668-3685 | refines the take of an error snapshot: the new buffer is what the encoder makes of the error taken |
| BridgeState.State.TakeLastError | wasm/browser-bridge/src/lib.rs:3596-3617 | refines the take of the sticky error |
| BridgeState.State.Teardown | wasm/browser-bridge/src/lib.rs:2026-2034 | refines teardown; no handle is left live |
| BridgeInvariant.ReserveCases | wasm/browser-bridge/src/lib.rs:1603-1644 | a reservation is granted exactly when the bridge is up, has room and a token left and the resource is open; else it changes no resource |
| BridgeInvariant.StartAdvanceCases | wasm/browser-bridge/src/lib.rs:2651-2750 | starting an operation is a reservation, a repetition of a finished finish or abort, or a refusal |
| BridgeInvariant.TaskTakeCases | wasm/browser-bridge/src/lib.rs:2868-2889 | a take is granted exactly when there is room and the task is ready |
| BridgeInvariant.TakeShapes | wasm/browser-bridge/src/lib.rs:3019-3368 | every take export either only records a refusal or removes the completion and inserts one resource made of its payload |
| BridgeInvariant.ApplyKeeps | wasm/browser-bridge/src/lib.rs:1085-1256 | every export and every late publication, in any state, keeps the invariant: leases agree with busy states, tokens are spent, inner objects are linear, pending tasks are awaited, handles are issued |
| BridgeInvariant.RunKeeps | wasm/browser-bridge/src/lib.rs:966-970 | the invariant holds after every run |
| BridgeProgress.ApplyProgress | wasm/browser-bridge/src/lib.rs:698-721 | every event only adds to the issued handles, revives none, changes live resources only in the ways of their kind and pays for each insert out of the budget |
| BridgeProgress.RunProgress | wasm/browser-bridge/src/lib.rs:912-943 | the same over whole runs |
| BridgeFrame.ApplyFrame | wasm/browser-bridge/src/lib.rs:1147-1256 | an event changes only the handles it names, directly or through the lease of a task, and at most adds new ones |
| BridgeTheorems.BusyExactlyWhenLeased | wasm/browser-bridge/src/lib.rs:1559-1685 | in every reachable state a live stream, writer or lister is busy exactly when one live task is pending under its lease, and that task is unique and in flight |
| BridgeTheorems.TokensNeverReused | wasm/browser-bridge/src/lib.rs:956-964 | the token of a granted reservation appears in no earlier state, although refusals spend tokens |
| BridgeTheorems.HandlesAreFresh | wasm/browser-bridge/src/lib.rs:698-721 | a handle issued at any time was never live before; its word is positive and 31 bits wide |
| BridgeTheorems.HandlesStayDead | wasm/browser-bridge/src/lib.rs:916-938 | a handle that stopped resolving never resolves again |
| BridgeTheorems.HandleBudget | wasm/browser-bridge/src/lib.rs:36-37 | no run inserts more than 65535 * 32767 handles |
| BridgeTheorems.TakesAreAtomic | wasm/browser-bridge/src/lib.rs:3058-3368 | in every reachable state a take that refuses changes no resource, one that succeeds moves the payload to exactly one fresh handle, and no unreachable arm is reached |
| BridgeTheorems.TaskTakenOnce | wasm/browser-bridge/src/lib.rs:2868-2889 | a task take refuses without effect or consumes the task and moves its completion to one fresh handle |
| BridgeTheorems.SpentTasksStaySpent | wasm/browser-bridge/src/lib.rs:2868-2889 | a consumed or cancelled task stays so until released and every later take is refused |
| BridgeTheorems.EntrySnapshotIsAtomic | wasm/browser-bridge/src/lib.rs:3464-3498 | an entry snapshot moves to one fresh buffer or the call refuses without effect; the unreachable arm is not reached |
| BridgeTheorems.EntrySnapshotTakenOnce | wasm/browser-bridge/src/lib.rs:3474-3478 | once taken, the snapshot of an entry can never be taken again |
| BridgeTheorems.TerminalStatesAbsorb | wasm/browser-bridge/src/lib.rs:1168-1199 | once ended, finished, aborted or failed, no later step of any run changes a resource |
| BridgeTheorems.FinishRepeats | wasm/browser-bridge/src/lib.rs:2675-2711 | every later finish of a finished writer publishes the metadata of the first |
| BridgeTheorems.OutcomesMatchStates | wasm/browser-bridge/src/lib.rs:1147-1210 | what a publication tells the caller is what it does to the resource: an error with a failure, metadata with a finish, an end with an end, and else the same inner object reopened under the same token; the completion in the task is exactly what the backend answered |
| BridgeTheorems.SettlesAsSaid | wasm/browser-bridge/src/lib.rs:1518-1557 | the completion of a future on a stream, writer or lister is written out per kind, verb and backend answer: the next chunk at its exact length, the metadata of the commit, the error given |
| BridgeTheorems.LastErrorIsMoved | wasm/browser-bridge/src/lib.rs:3596-3617 | exactly when the bridge is up, an error is recorded and there is room, the sticky error moves to one fresh handle and is cleared |
| BridgeTheorems.InnerObjectsAreLinear | wasm/browser-bridge/src/lib.rs:3019-3054 | no inner writer, cursor or lister is ever in two places |
| BridgeTheorems.StaleWorkIsInert | wasm/browser-bridge/src/lib.rs:1147-1249 | publishing, cancelling or releasing a task changes no other resource unless the lease of the task carries the current token of that resource |
| BridgeTheorems.TeardownIsFinal | wasm/browser-bridge/src/lib.rs:2026-2034 | after teardown the arena stays empty under every later call and late publication |
| BridgeDecisions.ExportsFollowTheTable | wasm/browser-bridge/src/lib.rs:2868-3498 | in every reachable state each take, release, cancel, push, window write and insert is granted or refused, with which error and to what new resources, exactly as one table on the constructors says; no unreachable arm is reached |
| BridgeDecisions.DroppedWorkFailsItsResource | wasm/browser-bridge/src/lib.rs:1212-1249 | in every reachable state cancelling or releasing a pending or ready task fails the stream, writer or lister of its lease exactly if that is open or busy under the operation of the lease, leaves every other resource, and a cancelled task is cancelled |
| BridgeDecisions.TakeOpenedDecided | wasm/browser-bridge/src/lib.rs:3019-3054 | granted exactly for a successful opening of the same kind with room for the resource |
| BridgeDecisions.TakeBufferDecided | wasm/browser-bridge/src/lib.rs:3058-3086 | granted exactly for a read within 64 MiB or a chunk within 256 KiB with room; an end of stream is taken without a replacement |
| BridgeDecisions.TakeMetadataDecided | wasm/browser-bridge/src/lib.rs:3090-3118 | granted exactly for the metadata of a stat, a copy or a finish with room, and not for that of a write |
| BridgeDecisions.TakeMetadataSnapshotDecided | wasm/browser-bridge/src/lib.rs:3124-3182 | granted exactly for metadata of any of the four operations that encodes within the limit, with room |
| BridgeDecisions.TakeEntryListDecided | wasm/browser-bridge/src/lib.rs:3186-3226 | granted exactly for a listing or a single entry with room; an end of listing is taken without a replacement |
| BridgeDecisions.TakeErrorDecided | wasm/browser-bridge/src/lib.rs:3295-3368 | granted exactly for a completion that carries an error, with room |
| BridgeDecisions.TakeErrorSnapshotDecided | wasm/browser-bridge/src/lib.rs:3668-3685 | granted exactly for an error resource that encodes within the limit, with room |
| BridgeDecisions.TaskCancelDecided | wasm/browser-bridge/src/lib.rs:2896-2911 | pending and ready tasks are cancelled, cancelled and consumed ones stay as they are, and everything else is refused |
| BridgeDecisions.PushByteDecided | wasm/browser-bridge/src/lib.rs:2071-2083 | every old byte keeps its place and the new last byte is the argument |
| BridgeDecisions.WriteWindowDecided | wasm/browser-bridge/src/lib.rs:2131-2140 | inside the window each byte is that of the data, outside each byte keeps its place, and the length stays |
| BridgeStarts.StartsFollowTheDecisions | wasm/browser-bridge/src/lib.rs:2651-2750 | in every reachable state each start is refused with a named error, perhaps spending a token, or leaves the task, lease and future that the resource it finds calls for |
| BridgeStarts.AloneOutcomesLand | wasm/browser-bridge/src/lib.rs:1071-1094 | a future without a lease makes its task ready with exactly the completion its backend answer means, if the task still waits, and changes nothing otherwise |
| StreamDelivery.ReadNextTakesNext | wasm/browser-bridge/src/lib.rs:1518-1557 | one read takes the next bytes off the cursor, at most the chunk size, loses none, and ends only when none are left |
| StreamDelivery.StepFollows | wasm/browser-bridge/src/lib.rs:2868-2925 | whatever one event delivers comes off the front of what the stream owes, and the stream owes the rest |
| StreamDelivery.DeliveryIsGapFree | wasm/browser-bridge/src/lib.rs:1147-1224 | over every polite run the delivered chunks are a prefix of what was owed and the remainder is still owed |
| StreamDelivery.OpenedStreamOwesAll | wasm/browser-bridge/src/lib.rs:3019-3028 | a stream that was just opened owes its whole object |
| StreamDelivery.StreamsDeliverTheirObject | wasm/browser-bridge/src/lib.rs:1372-1400 | in every run a stream delivers a prefix of its object in chunks within the configured size and 256 KiB, and all of it once it has ended |
| StreamGap.ImpoliteStartSkips | wasm/browser-bridge/src/lib.rs:2896-2911 | from every state with a nonempty finished read waiting, a granted start has a continuation in which exactly those bytes are lost: the caller receives the bytes at the position after them and the stream holds only what follows |
| StreamGap.ImpoliteRunHasGap | wasm/browser-bridge/src/lib.rs:1559-1601 | a run from the start of the bridge in which a stream over the bytes 1, 2 delivers just 2, which is no prefix |
| Unicode.CharsAreEncodings | src/opendal_stub.c:458-481 | the grammar of RFC 3629, section 4, accepts the encoding of every scalar value and reads the value back |
| Unicode.Utf8RoundTrip | src/opendal_stub.c:362-407 | encoded text is in the grammar and decodes to itself |
| Unicode.Utf16Decodes | src/opendal_stub.c:433-457 | what decodes as UTF-16 is the encoding of its scalar values |
| Unicode.Utf16RoundTrip | src/opendal_stub.c:433-457 | the UTF-16 encoding of every text decodes to it |
| Unicode.KnownEncodings | src/opendal_stub.c:458-481 | the worked examples of section 7 of RFC 3629 and section 5 of RFC 2781 come out byte for byte |
| StubText.AcceptsTheGrammar | src/opendal_stub.c:375-403 | lead range, continuation bits and the range of the computed code point together are the second-byte ranges of the grammar |
| StubText.ValidCharacter | src/opendal_stub.c:390-403 | accepts a character exactly by those tests |
| StubText.ValidUtf8 | src/opendal_stub.c:362-407 | accepts exactly the byte strings of RFC 3629, section 4, and a null pointer only with length zero |
| StubText.Utf16ToUtf8 | src/opendal_stub.c:409-485 | succeeds exactly on well-formed UTF-16 when memory can be had, writes the UTF-8 encoding of the same scalar values within three bytes per unit, and leaves no buffer on failure |
| StubText.PutChar | src/opendal_stub.c:458-481 | appends the encoding of one code point and changes nothing before it |
| StubText.TranscodeMeans | src/opendal_stub.c:409-485 | the output is valid UTF-8 and decodes to the text of the input |
| StubText.TranscodeInjective | src/opendal_stub.c:409-485 | two inputs with the same output are equal |
| StubText.TranscodeOnto | src/opendal_stub.c:409-485 | every valid UTF-8 string is the output for some input |
| StubText.DeletePathUtf8Length | src/batch.mbt:2-45 | refuses exactly the strings the converter calls invalid and else returns exactly the length of its output |
| ErrorSnapshot.ErrorSnapshotBytes | wasm/browser-bridge/src/lib.rs:313-338 | writes the six words, the name and the message, and refuses exactly what would pass the buffer limit |
| ErrorSnapshot.SnapshotWords | wasm/browser-bridge/src/lib.rs:330-338 | byte by byte: the magic 4F 44 45 31, version 1, kind at 8, status at 12, lengths at 16 and 20, name and message from 24 on |
| ErrorSnapshot.DecodeEncoded | wasm/browser-bridge/src/lib.rs:3732-3770 | decoding an encoded error returns its kind, status, name and message |
| ErrorSnapshot.EncodeDecoded | wasm/browser-bridge/src/lib.rs:3732-3770 | whatever the decoder accepts is the encoding of what it returns, within the limit exactly when the buffer is |
| ErrorSnapshot.BrowserAgrees | wasm/browser-runtime/index.mjs:290-331 | the browser decoder accepts the same buffers within the limit and differs only in dropping a leading byte order mark |
| ErrorSnapshot.BrowserDecodesEncoded | wasm/browser-runtime/index.mjs:290-331 | an error reaches the browser unchanged exactly when neither text starts with the mark |
| ErrorSnapshot.MarkIsLost | wasm/browser-runtime/index.mjs:36-36 | a message that is just the mark arrives empty |
| MetadataSnapshot.NormaliseKeepsInstant | wasm/browser-bridge/src/lib.rs:364-380 | normalising keeps the total nanoseconds, also of negative instants, with nanoseconds in 0 to 10^9 - 1, and fails only when the borrowed second does not fit |
| MetadataSnapshot.Measure | wasm/browser-bridge/src/lib.rs:390-418 | presence bits, lengths and total length are those of the layout, or the total passes the limit |
| MetadataSnapshot.NewView | wasm/browser-bridge/src/lib.rs:354-431 | the view describes the record the metadata normalises to, or the error is the first one met |
| MetadataSnapshot.Encode | wasm/browser-bridge/src/lib.rs:433-458 | the bytes appended are the layout of the record, of the precomputed length |
| MetadataSnapshot.LayoutLength | wasm/browser-bridge/src/lib.rs:452-456 | the snapshot is 84 bytes and its strings |
| MetadataSnapshot.MetadataSnapshotBytes | wasm/browser-bridge/src/lib.rs:461-463 | the whole encoder, with its three refusals |
| MetadataSnapshot.SnapshotWords | wasm/browser-bridge/src/lib.rs:433-448 | byte by byte: the magic 4F 44 4D 31, version 1, mode word 0, 1 or 2 for unknown, file and directory at 16, the flags at 20 and 24, zero at 28 and 52 |
| MetadataSnapshot.SnapshotNumbers | wasm/browser-bridge/src/lib.rs:433-448 | presence bits at 8, content length at 32, seconds in two's complement at 40, nanoseconds at 48 |
| MetadataSnapshot.SnapshotTexts | wasm/browser-bridge/src/lib.rs:449-457 | seven lengths from 56 on and the texts from 84 on |
| MetadataSnapshot.PresenceBits | wasm/browser-bridge/src/lib.rs:393-418 | which bit stands for which field: 1 is-current, 2 last-modified, 4 to 256 the seven strings in order |
| MetadataDecoder.ParseEncoded | wasm/browser-runtime/index.mjs:333-412 | decoding an encoded record returns it: absent differs from empty, none from false |
| MetadataDecoder.EncodeParsed | wasm/browser-runtime/index.mjs:333-412 | snapshots are canonical: whatever is accepted is the encoding of what it decodes to |
| MetadataDecoder.EncodingIsInjective | wasm/browser-bridge/src/lib.rs:353-459 | equal snapshots come from equal metadata |
| MetadataDecoder.DecodeStrings | wasm/browser-runtime/index.mjs:372-388 | the cursor loop reads the announced strings and accepts only if nothing is left |
| MetadataDecoder.DecodeMetadataSnapshot | wasm/browser-runtime/index.mjs:333-412 | the runtime decoder is the canonical parser, up to a leading mark in each text |
| MetadataDecoder.BrowserSeesRecord | wasm/browser-runtime/index.mjs:333-412 | metadata reaches the browser unchanged exactly when no text starts with the mark |
| InstallTheorems.ApplyKeepsStaging | build.js:745-769 | staging directories in use exist, belong to one process and are as complete as its phase says |
| InstallTheorems.InstalledTreesAreComplete | build.js:701-776 | in every run, with any crashes and evictions, the install path holds what was there at first, nothing, or a tree with all four files whose library, manifest and marker are the pinned ones |
| InstallTheorems.NoTreeIsDestroyed | build.js:652-659 | every tree ever at the install path is still there or in quarantine |
| InstallTheorems.ApplyKeepsExclusive | build.js:661-699 | every event, crashes included, keeps at most one process between making and removing the lock, unless it finds a stale lock |
| InstallTheorems.OneInstallerAtATime | build.js:661-776 | in every run, with any crashes and any lock left behind, in which nobody finds a stale lock: at most one process is in its critical section, and success is returned only with a complete install in place; `InstallOutcomes` says when it is returned |
| InstallTheorems.InstalledOnce | build.js:707-731 | in the same runs a complete install is never replaced and nobody downloads after it exists |
| InstallTheorems.PromptInstallersRespectLocks | build.js:677-683 | if nobody crashes, nobody is inside longer than the stale age and no lock was left behind, nobody finds a stale lock |
| InstallRaces.OverstayLetsAnotherIn | build.js:677-683 | whenever a holder has overstayed, a waiting process can be the second one inside three steps later |
| InstallRaces.TwoWaitersGetIn | build.js:677-683 | two waiters at a stale lock can both get in: the second removes the fresh lock of the first |
| InstallRaces.StaleLockLetsTwoIn | build.js:661-699 | whenever a lock is stale and no install is complete, any two newcomers can both get in |
| InstallRaces.ExclusionIsLostExactlyWhenStale | build.js:661-699 | while no install is complete, two processes can be inside before more time passes if and only if the lock is stale now |
| InstallRaces.TwoInsideDownloadTwice | build.js:720-762 | two processes inside can install and then download once more |
| InstallRaces.LeftoverLockLetsTwoIn | build.js:677-683 | a lock left behind and fourteen events without a crash end with two processes inside |
| InstallRaces.LeftoverLockDownloadsTwice | build.js:720-731 | the same start ends with a download while a complete install is in place |
| InstallOutcomes.OnlyTimeoutsFail | build.js:661-776 | in every run that finds no stale lock, whatever other processes do and however they crash: a process at which no call goes wrong never fails, except after waiting two minutes for the lock |
| InstallOutcomes.AssuredProcessesSucceed | build.js:701-776 | in the same runs, once a process holds the lock or a complete install is in place, sixteen steps of its own, writes not counted, bring it to its end: success with a complete install, or a timeout |
| InstallOutcomes.RenamedReturnsSuccess | build.js:760-775 | a process that renamed its tree into place is, one, two and three of its own steps later, at cleanup, at giving the lock back and returned with success, and that install stays |
| InstallOutcomes.AloneInstalls | build.js:701-776 | a lone process over any cache without a lock, if nothing goes wrong, ends with success, a complete install and no lock |
| InstallOutcomes.FirstInstall | build.js:701-776 | the calls of a first install, and that they leave the cache as before but for the installed tree, with one download |
| InstallOutcomes.ExitsAnswerTheInstall | build.js:707-724 | beginning, looking again under the lock and reusing answer success exactly when the install is complete then |
| InstallOutcomes.FailuresCleanUp | build.js:719-775 | when a call fails inside, the download is not the pinned archive, the staged files do not validate or the rename is blocked, the process removes its staging directory, gives the lock back and fails; install, quarantine and other processes are untouched |
| InstallOutcomes.WaitersTakeTurns | build.js:661-699 | a waiting process takes the lock when it finds none, else looks for an install, then at the age of the lock, and removes only a lock it found older than fifteen minutes; nothing else changes |
| InstallOutcomes.WaitsTwoMinutes | build.js:662-698 | whatever the others do, a waiting process gives up at the first look at the clock that is two minutes or more after it began, and at no earlier one |
| InstallOutcomes.NothingLeftBehind | build.js:763-775 | if nobody crashes, then when all processes have returned the staging directories are exactly those from before, untouched |
| NativeHeap.TransferKeeps | src/opendal_stub.c:3836-4031 | a take gives each pointer exactly one new owner |
| NativeHeap.FinalizeKeeps | src/opendal_stub.c:804-946 | a finalizer frees every pointer its object still holds and nothing else |
| NativeHeap.ApplyKeeps | src/opendal_stub.c:804-1117 | every call keeps each issued pointer in exactly one field or freed once |
| NativeHeap.FreedAtMostOnce | src/opendal_stub.c:804-946 | over any interleaving no handle is freed twice or reachable after it is freed |
| NativeHeap.FreedExactlyOnce | src/opendal_stub.c:883-885 | when all objects are finalized every handle has been freed exactly once |
| NativeHeap.NothingLeaks | src/opendal_stub.c:1048-1117 | finalizing what is left, in any order, frees every handle exactly once |
| NativeHeap.MetadataOwnsOne | src/opendal_stub.c:1383-1401 | a metadata object never owns both a metadata and an entry pointer |
| NativeStub.Stub.TakeFromResult | src/opendal_stub.c:3853-3941 | the pointer is in the new object and no longer in the result, which stays good, or the result keeps it and is spoiled; no other object changes |
| NativeStub.Stub.TakeOperatorFromResult | src/opendal_stub.c:3836-3851 | operator and info leave the result together and are in the new object, or both stay and the result is spoiled |
| NativeStub.Stub.TakeMetadataOfEntry | src/opendal_stub.c:4104-4112 | the entry pointer moves into a metadata object that has no metadata pointer |
| NativeStub.Stub.TakeBytesFromResult | src/opendal_stub.c:3943-3990 | the buffer is freed and cleared exactly when its bytes were copied out of a good result; else the result keeps it and is spoiled, and nothing is freed |
| NativeStub.Stub.FreeFields | src/opendal_stub.c:804-881 | each listed field that is set is freed once and cleared, the others are kept, and no other object changes |
| NativeStub.Stub.ReleaseObject | src/opendal_stub.c:4026-4031 | afterwards the result, entry or request holds no pointer at all and every one it held was freed |
| NativeStub.Stub.CloseOperator | src/opendal_stub.c:921-931 | the operator is freed and its info stays |
| NativeStub.Stub.FinalizeObject | src/opendal_stub.c:883-885 | the object is gone and holds no pointer; every one it held was freed |
| Fingerprint.SortSorts | scripts/generate-browser-embed.mjs:134-134 | sorting by label gives an ascending permutation |
| Fingerprint.OrderIsByFirstDifference | scripts/generate-browser-embed.mjs:134-134 | a label is at most another exactly when it starts it or has the smaller unit where they first differ |
| Fingerprint.RepeatsAreAdjacent | scripts/generate-browser-embed.mjs:135-139 | in a sorted list a repeated label stands next to itself |
| Fingerprint.FilesAreThosePathsLeadTo | scripts/generate-browser-embed.mjs:114-130 | the walk finds exactly the files some path leads to, under the label of that path, and fails exactly when a path leads to something else |
| Fingerprint.Walk | scripts/generate-browser-embed.mjs:114-130 | the recursive walk collects those files |
| Fingerprint.WalkDoesNotRepeat | scripts/generate-browser-embed.mjs:114-130 | if names in each directory differ and have no slash, no label occurs twice below one directory |
| Fingerprint.RefuseRepeated | scripts/generate-browser-embed.mjs:134-139 | refuses exactly the lists in which a label occurs twice, and else returns them sorted |
| Fingerprint.ReadSourceInputs | scripts/generate-browser-embed.mjs:112-146 | fails exactly when below some given directory there is neither file nor directory or when a label occurs twice; else returns, sorted, exactly the given files and those some path below a given directory leads to, as often as the walks find them |
| Fingerprint.SourceFingerprint | scripts/generate-browser-embed.mjs:96-110 | feeds the hash the frames of the sources in order; `EditsChangeTheStream` and `AsciiFile` say what the frames are |
| Fingerprint.StreamDeterminesSources | scripts/generate-browser-embed.mjs:96-110 | for all labels without NUL, two lists feed the hash the same bytes exactly when label bytes and line-normalised texts agree in order |
| Fingerprint.StreamDeterminesLabels | scripts/generate-browser-embed.mjs:96-110 | for well-formed labels that means the labels themselves agree |
| Fingerprint.OtherLinesAreKept | scripts/generate-browser-embed.mjs:99-101 | a text without a carriage return and line feed pair is hashed as it is |
| Fingerprint.PairsBecomeLineFeeds | scripts/generate-browser-embed.mjs:99-101 | wherever such a pair stands, it becomes one line feed and both sides are normalised on their own |
| Fingerprint.EditsChangeTheStream | scripts/generate-browser-embed.mjs:96-110 | for well-formed labels and texts without such pairs, two lists feed the hash the same bytes exactly when they are equal |
| Fingerprint.AsciiFile | scripts/generate-browser-embed.mjs:102-107 | the bytes for a plain ASCII file: label, zero, length in decimal, zero, text, zero |
| Fingerprint.LoneSurrogatesCollide | scripts/generate-browser-embed.mjs:102-102 | a lone surrogate and U+FFFD give the same label bytes |
| Fingerprint.NulLabelsCollide | scripts/generate-browser-embed.mjs:102-103 | with a NUL in a label one source can pass for two |
| ShellWords.QuoteRoundTrip | build.js:778-780 | the shell reads the quoted form of every string as that one word |
| ShellWords.LinkLineRoundTrip | build.js:782-823 | the link line splits back into the library and the flags, with the runtime library in place of its flag, when flags contain only allowed characters |
| ShellWords.LinkLineFails | build.js:782-808 | there is no line exactly on linux-arm64 with the runtime flag present and no runtime library found |
| ShellWords.FlagReads | build.js:865-878 | a flag the maintainer check allows is read as itself |

## Left out

- OpenDAL, its services, `spawn_local`, the forced-pending canary and the poll-once exports: foreign or test-only; their outcomes are choices of the environment.
- Operator builders and operator options of the bridge: each branch is settled by reading it; builders and operators are plain resources here.
- Inspecting exports of the bridge (lengths, states, codes, capability words): they change nothing but the sticky error, which the `Note` event covers. Handing out a window pointer and the write through it are one event.
- Error messages, kind names and the handle word inside an error: errors keep their constructor and unpacked handle only.
- Allocation failure inside the bridge: only where the source reports it (snapshots, the converter, a failed chunk copy); elsewhere it is taken not to happen.
- The bytes a writer sends and the entries a lister yields: they go to and come from the backend, and no order over them is stated.
- Shifts and masks in the text conversions are written as division, remainder and sums over unbounded integers.
- Lossy decoding of source files that are not UTF-8: a source is its decoded text.
- Reading a directory and sorting its entries by name: a directory is the list of what it holds in that order, and sorting labels is a reference sort.
- Validation of an install directory is one step; it is several reads in the source.
- Install events do not include other programs changing the cache directory, and removing a staging directory is one step.
- The metadata and error encoders are arguments of the exports that take snapshots; `MetadataSnapshot` and `ErrorSnapshot` model them, over metadata and errors with all their fields.
- Native calls that fill a result are steps of the environment; a null object is one that is not live.
- Native results in which the API table fails to load: then nothing is freed; the table is taken to load the same way every time.
- Native task cancellation and completion, option marshalling and ABI negotiation of the stub.
- Embedding the payload as MoonBit source (`chunkText`, `renderPartFunction`) and its parser: would only add easy members.
- Download, hashing, tar and JSON parsing of the installer: reduced to whether bytes validate.
- The other facades, packaging and release scripts, examples and guides.
