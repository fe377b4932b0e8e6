# Verified models of the libhybris capture tools, composer client, media pump and build helpers

This project models, in Dafny, the state machines and algorithms of the repository that have the
most logic of their own, and proves what they are for. Each method that follows an imperative part of
the source is proved against a specification that does not mention how the part works: a language, a
set of bytes, a reachable set, a conservation law, an invariant of every run, or a description of the
result that is read off the calls, rows, messages or words themselves, with no running state.

| files | what they model |
|---|---|
| `RenderingStream`, `RenderingFindings`, `RenderingBatch`, `RenderingLanguage`, `RenderingLocality`, `RenderingTracker`, `RenderingCapture`, `DumpRequest` | `tools/inspect-rendering-capture.py`: the suspend/resume judgement of dynamic rendering, the bindings at each draw, the tracking of recordings, and the dump request |
| `FlushCoverage`, `CommandGraph`, `UploadWorld`, `UploadHistory`, `UploadCommands`, `UploadVerdict`, `UploadCapture` | `tools/inspect-upload-capture.py`: the interval sweep, the search over secondary command buffers, and the event loop |
| `ReturnCommands`, `ReturnEncoding`, `ReturnHistory`, `CommandReader`, `ParsedQueues`, `ReleaseFences`, `FenceOwners` | `compat/hwc2/HidlComposerHal.cpp` and `HWC2.cpp`: the parser of return commands and the ownership of fence descriptors |
| `LayerTeardown` | `compat/hwc2/HWC2.cpp`: displays and layers that destroy each other from either side |
| `AidlComposer` | `compat/hwc2/AidlComposerHal.cpp`, Android 14 and later: readers and writers per display |
| `SimplePlayer`, `AudioRender` | `compat/media/SimplePlayer.cpp` and `media_codec_layer.cpp`: the message loop, the mirrored buffer queues, and the wrapping frame arithmetic |
| `WorkTree`, `PrepareBuild`, `BuildCacheProtocol`, `StageRuntime` | `tools/prepare-build.py` and `tools/stage-runtime.py`: the incremental pass over a tree with links, its crash protocol, and the dependency worklist |
| `BufferRegistry` | `arlinux/bionic-vulkan/native.cpp`: the reference-counted registry under all thread interleavings |
| `EdgeExpansion` | `arlinux/diagnostics/polygon_probe.cpp`: triangles to lines, with strip restart |
| `Options`, `Sorting` | shared helpers |

`dafny verify dfyconfig.toml` checks everything. Every lemma turns automatic induction off: proofs by
induction are written out, and the hypothesis that Dafny would add is not limited to values of the
parameter's type.

## What the environment is assumed to do

- Calls of a capture, directory trees, digests and DT_NEEDED lists are given as values.
- The base classes of the command reader are not part of this model. A frame is a header word and as
  many words as its low 16 bits say; `beginCommand` refuses a frame that does not fit the rest of the
  queue and leaves it unread; `endCommand` skips to its end; the fixed lengths are the number of words
  that the parsers read. Opcode numbers are a parameter.
- Each `readFence` that succeeds yields a descriptor that is told apart from all others, even where the
  kernel would use its number again. A vector that was moved from is empty.
- The HAL numbers a new layer unlike the layers that it has on that display.
- The native allocator does not hand out a handle again before its buffer was given back, and
  reference counts do not wrap.
- The codec and the extractor of the player may return any buffers and samples; the generation counter
  of the player does not wrap.
- A build leaves the inputs on record alone. A process may die after any step, and a file that is being
  written may be torn; a rename is atomic.

## Where the code does not do what one would expect

- `CommandReader::parse` reports success when only the last frame of the queue is malformed, because
  the frame is skipped before the loop ends and the queue is then empty. `SucceedsIff` gives the exact
  condition, and `LastBadFrameUnnoticed` an input.
- `uncovered` answers yes for an empty interval that lies in no flush. A snapshot or buffer of no bytes
  can therefore be reported although no byte is missing. `LostIffByteLost` gives the exact condition,
  and `EmptySnapshotReported` an input; with nonempty fills and buffers the verdict is exact
  (`SolidIsByteExact`).
- The incremental pass works through whatever stands above an input in the cached tree. It fails when
  that is a file or a link that leads nowhere (`FileAboveInputBlocks` gives an input). When it is a link
  to a directory, two inputs can have the same place, and the pass ends with one of them missing
  (`LinkAboveOverwrites`). `PassAgreesIff` gives both conditions exactly, for trees in which no input
  leads through a place that the pass rewrites; elsewhere the order of the inputs decides
  (`OrderDecides`). Over a cached tree with no links above inputs, the pass fails exactly when a file is
  above one, and does what a clean copy does otherwise (`PlainPass`); over one that still has the
  recorded inputs it never fails (`CachedPass`).
- `renderAudio` counts `nbytes / frameSize` frames per call, so that bytes of a partial frame are never
  counted. When a buffer does not hold whole frames, the counter falls behind what the track was given
  and the track can be given more than it holds. `ExactIff` gives the exact condition on a buffer, and
  `PartialFramesOverrun` an input.
- `presentOrValidateState` of a display that was selected but given no result is indeterminate; the
  model keeps it apart from every value.

## Model

| member | source | states |
|---|---|---|
| `RenderingBatch.InspectBatch` | tools/inspect-rendering-capture.py:54-179 | the replay loop reports, of the concatenated stream of the batch: one scope per begin, in order, with its first following end and the draws in between; for each event in turn exactly the findings it deserves, each kind if and only if its own condition on the positions before it holds, with the scope and the commands that it names, and at the end those of a suspended scope; for each event exactly the notes it deserves; and every recording of the batch |
| `RenderingFindings.VerdictsAreDeserved` | tools/inspect-rendering-capture.py:99-178 | the findings of a stream are, event by event and in a fixed order of kinds, exactly those that are deserved: for each of the eight kinds an if-and-only-if over positions (a scope is active if nothing bounds it after its begin, suspended if the first boundary after its begin is its end with the suspending flag and neither a begin nor a missing recording follows) |
| `RenderingFindings.NotesAreDeserved` | tools/inspect-rendering-capture.py:124-139 | the notes are, event by event, exactly one for a missing recording, an unregistered command, a secondary buffer that is executed, and a bind that is not reconstructed |
| `RenderingStream.FlagBits` | tools/inspect-rendering-capture.py:47-121 | suspending and resuming are bits 1 and 2 of the flags, and the parameters that must agree leave out the lowest three bits |
| `RenderingBatch.DrawsInForce` | tools/inspect-rendering-capture.py:165-171 | every draw of a reported scope is a draw command of the stream inside that scope, and its bindings are those of the last commands that wrote each slot before it |
| `RenderingLanguage.CleanIffInLanguage` | tools/inspect-rendering-capture.py:47-179 | for complete recordings there is no finding if and only if the stream parses into begin/end pairs that close inside their recording, where a begin resumes exactly after a suspended end, with equal parameters and no action or sync command between, and nothing is left suspended |
| `RenderingLanguage.ParsedIsClean` | tools/inspect-rendering-capture.py:83-178 | a stream of the language gets no verdict anywhere |
| `RenderingLanguage.CleanParses` | tools/inspect-rendering-capture.py:83-178 | a stream without a verdict parses up to its end, where a scope may still be open or suspended |
| `RenderingLanguage.BatchEndsClosed` | tools/inspect-rendering-capture.py:172-175 | no scope stays active past the recording that began it |
| `RenderingBatch.Advance` | tools/inspect-rendering-capture.py:69-175 | one event never leaves both an active and a suspended scope, nor intervening work without a suspended scope |
| `RenderingBatch.RunReferences` | tools/inspect-rendering-capture.py:83-122 | the active and suspended variables always refer to the scopes that the stream says are active and suspended |
| `RenderingBatch.RunIntervening` | tools/inspect-rendering-capture.py:115-129 | the collected work is exactly the action and sync commands since the last suspension |
| `RenderingBatch.RunFindings` | tools/inspect-rendering-capture.py:99-122 | after any events the collected findings are the verdicts of the positions so far, which `VerdictsAreDeserved` describes kind by kind |
| `RenderingBatch.RunNotes` | tools/inspect-rendering-capture.py:124-139 | the uncovered notes are exactly those of the stream |
| `RenderingBatch.BindingsAreLastWrites` | tools/inspect-rendering-capture.py:133-164 | pipeline, descriptor, vertex, index and push bindings are what the last command to write each slot wrote since the recording began or bindings became unknown |
| `RenderingBatch.VertexIsLastWrite` | tools/inspect-rendering-capture.py:147-158 | a vertex slot has the buffer of the last bind that covers it and the stride of the last covering command that gave one |
| `RenderingBatch.WriteSets` | tools/inspect-rendering-capture.py:142-146 | the loop over descriptor sets writes each at its offset from firstSet and no others |
| `RenderingBatch.WriteVertices` | tools/inspect-rendering-capture.py:147-158 | the loop over buffers writes each at its offset from firstBinding and keeps a stride that is not given |
| `RenderingBatch.Bind` | tools/inspect-rendering-capture.py:133-164 | each binding command changes the bindings as the last-write specification does |
| `RenderingBatch.JudgeBegin` | tools/inspect-rendering-capture.py:99-114 | the checks at a begin append, in order, the findings that `BeginGroup` proves to be exactly the deserved ones |
| `RenderingFindings.BeginGroup` | tools/inspect-rendering-capture.py:99-114 | of the five findings that a begin can have, each is given if and only if its condition holds of the active scope, the suspended scope and the work since, and names them |
| `RenderingStream.BoundaryIsFirst` | tools/inspect-rendering-capture.py:116-122 | the position that ends a scope is the first begin, end or close after it |
| `RenderingStream.LastBeginIsLast` | tools/inspect-rendering-capture.py:83-115 | the latest begin is a begin, and there is none after it |
| `RenderingLocality.ScopesAreLocal` | tools/inspect-rendering-capture.py:69-178 | the scopes of a batch are those of its recordings on their own, one after the other: no scope crosses recordings |
| `RenderingLocality.RecordingScopesInOrder` | tools/inspect-rendering-capture.py:82-171 | with increasing call indices, begin < draws < end within every scope, and the scopes of a recording are disjoint and in order |
| `RenderingCapture.Inspect` | tools/inspect-rendering-capture.py:182-272 | the event loop rejects indices that do not increase; otherwise the result is described by the calls alone: one report for every batch of every submit, in order, about the recordings as the calls before it leave them; one for every recording with an end that no submit mentions, in the order of the begins that made their keys; a note for every command whose buffer has no recording then, and one for every recording with neither end nor submit; and nothing else |
| `RenderingTracker.TrackedIsHistory` | tools/inspect-rendering-capture.py:190-238 | after any calls with increasing indices, what is tracked is read off the calls: a buffer has a recording if and only if its last begin is not followed by a reset, free or pool operation that drops it; its commands are those issued to it since, its end the last one since, it is submitted if a submit since then mentions it, and its pool is that of its last allocation |
| `RenderingTracker.OrderIsHistory` | tools/inspect-rendering-capture.py:190-234 | the order of the dictionary is that of the begins that made the keys |
| `RenderingTracker.IncreasingIff` | tools/inspect-rendering-capture.py:182-190 | the check made row by row holds if and only if every index is at least zero and less than every later one |
| `RenderingTracker.OrderedKeys` | tools/inspect-rendering-capture.py:190-234 | at any time the order of the dictionary lists each tracked recording once |
| `RenderingCapture.InspectSubmit` | tools/inspect-rendering-capture.py:239-250 | one report per batch, in order |
| `RenderingCapture.InspectSurvivors` | tools/inspect-rendering-capture.py:255-270 | in the order of the dictionary, one report for each complete recording that no captured submit mentions, none left out, with the note that its context is unknown, and one note for each that has no end |
| `RenderingTracker.TrackerOrdered` | tools/inspect-rendering-capture.py:190-238 | at any time the tracked recordings have increasing command indices and different begins |
| `RenderingCapture.SubmissionsSound` | tools/inspect-rendering-capture.py:239-250 | every report of a capture is about recordings that were made before its submit, each in call order |
| `DumpRequest.Select` | tools/inspect-rendering-capture.py:294-314 | a selection comes out if and only if every requested draw has exactly one execution, with complete evidence, and it is that execution |
| `DumpRequest.MakeGroups` | tools/inspect-rendering-capture.py:314-320 | each group holds the selected draws with its key in order, and the passes of those draws |
| `DumpRequest.MakeLists` | tools/inspect-rendering-capture.py:321-325 | the four lists are parallel, sorted by (submit, begin), and hold what was selected |
| `DumpRequest.PlacementsRooted` | tools/inspect-rendering-capture.py:296-310 | every execution that is visited comes from a scope of a recording made before its submit |
| `DumpRequest.RootedInOrder` | tools/inspect-rendering-capture.py:190-250 | recording begin < scope begin < draw < scope end < submit, and two ended scopes of one recording are the same or disjoint |
| `DumpRequest.MadeFromPlacesOnce` | tools/inspect-rendering-capture.py:314-325 | each selected draw is in exactly one place of the lists |
| `DumpRequest.MadeFromNests` | tools/inspect-rendering-capture.py:314-325 | the passes listed for a recording are disjoint, and each draw lies in one of them |
| `DumpRequest.MakeRequest` | tools/inspect-rendering-capture.py:294-327 | a request comes out if and only if every requested draw is executed exactly once in the reports chosen by submit, in an ended scope of a fully reconstructed report; it then has one entry per pair of submit and recording begin, in order, whose draws are exactly the requested ones executed there and whose passes are exactly the begin and end of their scopes, each draw in one place, nested in call order, with disjoint passes and no empty entry |
| `DumpRequest.OnceIff` | tools/inspect-rendering-capture.py:296-314 | the executions that are visited have a requested draw exactly once if and only if there is one spot (report, scope, draw, recording) of the reports at which it stands, and the report is whole |
| `Sorting.Sorted` | tools/inspect-rendering-capture.py:321-324 | sorting a set gives its elements in strictly ascending order |
| `FlushCoverage.Uncovered` | tools/inspect-upload-capture.py:20-30 | the cursor sweep over sorted ranges answers yes exactly if a byte of a nonempty interval is in no range, and exactly if the point is in none when the interval is empty |
| `FlushCoverage.EmptyIntervalCanBeMissing` | tools/inspect-upload-capture.py:20-30 | an empty interval can be called uncovered though it has no byte |
| `CommandGraph.FlaggedIffCycle` | tools/inspect-upload-capture.py:50-58 | the search meets an ancestor if and only if a cycle of command buffers is reachable |
| `CommandGraph.VisitsAreUses` | tools/inspect-upload-capture.py:50-59 | the search in its order visits exactly what it collects |
| `CommandGraph.CollectedIffReachable` | tools/inspect-upload-capture.py:50-59 | the search over simple paths collects exactly what the reachable command buffers consume, cyclic or not |
| `UploadVerdict.LostIffByteLost` | tools/inspect-upload-capture.py:60-79 | a buffer is judged uncovered if and only if a byte of it was snapshot-written in mapped, host-visible, non-coherent memory and is in no flush, or an empty overlap stands exposed |
| `UploadVerdict.SolidIsByteExact` | tools/inspect-upload-capture.py:60-79 | over every trace with nonempty fills and buffers the verdict is exactly the byte-level one |
| `UploadCapture.EmptySnapshotReported` | tools/inspect-upload-capture.py:50-93 | a capture with an empty fill, followed from the first row to its submit: the buffer is reported though no byte of any buffer is lost |
| `UploadVerdict.Scan` | tools/inspect-upload-capture.py:69-79 | the loop finds out whether a snapshot overlaps the buffer and whether one is exposed |
| `UploadVerdict.Record` | tools/inspect-upload-capture.py:80-93 | a finding keeps its first submit and counts each submit call once |
| `UploadVerdict.SubmitCommand` | tools/inspect-upload-capture.py:50-93 | the recursive search ends on cyclic graphs, reports every collected use and notes a cycle exactly if it meets one |
| `UploadCapture.FindingsAreRowBytes` | tools/inspect-upload-capture.py:33-183 | over every trace with nonempty fills and buffers, a key has a finding if and only if some submit row uses, through a chain of command buffers recorded before it, a buffer created at that key of which a byte lies in memory that is mapped, host-visible and not coherent, was filled by a row while the memory was live, and is in no flush row: all of it said of the rows |
| `UploadCommands.WorldIsHistory` | tools/inspect-upload-capture.py:95-183 | after any rows, what is tracked is read off the rows: a memory is mapped by its last map or unmap, its writes and flushes are those of the fill and flush rows that name it while it is live, a handle denotes its last allocation or creation not freed since, a buffer lies where its last bind put it, and a command buffer lists what was recorded into it since it was last started |
| `UploadCapture.AccountsAreRows` | tools/inspect-upload-capture.py:33-183 | an account of the submits in terms of the tracked state is the same account in terms of the rows |
| `UploadCapture.InspectUploads` | tools/inspect-upload-capture.py:33-183 | over every trace, said of the rows: a (buffer, kind) key has a finding if and only if some submit row uses a buffer with that key that is uncovered by the rows before; its count is the number of such submit calls, its first submit the first of them and its first consumer the first use in the order of the search; it is examined if and only if a submit uses a buffer that fills touch; the two limitations are noted if and only if a chain of command buffers from a submit comes to one twice, or a submit uses mapped memory of unknown type; with nonempty fills and buffers, a finding is exactly a lost byte |
| `ReturnCommands.UnselectedUntouched` | compat/hwc2/HidlComposerHal.cpp:1559-1567 | over any commands a display that is not selected keeps its data |
| `ReturnCommands.CurrentIsLastSelected` | compat/hwc2/HidlComposerHal.cpp:1559-1567 | over any commands the cached pointer denotes the display that was selected last |
| `ReturnCommands.ApplyConserves` | compat/hwc2/HidlComposerHal.cpp:1559-1681 | a command keeps every descriptor in exactly one place, also when it overwrites a present fence |
| `ReturnCommands.ApplyKeepsPaired` | compat/hwc2/HidlComposerHal.cpp:1582-1662 | a command keeps the paired layer and value vectors equal in length |
| `ReturnCommands.HandOut` | compat/hwc2/HidlComposerHal.cpp:1722-1782 | replacing a display's data keeps descriptors conserved if what it loses goes to the caller |
| `CommandReader.NoBadFrame` | compat/hwc2/HidlComposerHal.cpp:1503-1557 | the parser meets no bad frame if and only if the whole queue decodes and every command finds a selected display |
| `ReturnEncoding.EncodedDecodes` | compat/hwc2/HidlComposerHal.cpp:1559-1680 | the words of any commands decode to those commands: header with opcode and length, signed and 64-bit values, counts and pairs |
| `ReturnEncoding.DecodedIsEncoded` | compat/hwc2/HidlComposerHal.cpp:1559-1680 | words that decode are the words of what they decode to, fence words apart |
| `ReturnEncoding.DecodesIff` | compat/hwc2/HidlComposerHal.cpp:1559-1680 | words decode to given commands if and only if they are the words of those commands |
| `ReturnHistory.FoldLeaves` | compat/hwc2/HidlComposerHal.cpp:1559-1680 | what any commands leave is read off them: for each display the mask, stage, target property and present fence of the last command of that kind meant for it, the changed types, requests and release fences of all commands meant for it in order, each release fence with its number in the order of reading, the errors in order with their locations, and the display selected last |
| `ParsedQueues.ApplicableIff` | compat/hwc2/HidlComposerHal.cpp:1569-1680 | all commands can be applied if and only if none but an error comes before the first selection |
| `ParsedQueues.ParseReads` | compat/hwc2/HidlComposerHal.cpp:1503-1557 | parsing the words of commands that select a display first reads to the end and leaves what those commands say |
| `ParsedQueues.ParseReadsBefore` | compat/hwc2/HidlComposerHal.cpp:1503-1557 | parsing any words leaves what the commands say whose words are the part before the first bad frame; where it stops short no command is written, or one that needs a display when none is selected |
| `CommandReader.ParseIsFold` | compat/hwc2/HidlComposerHal.cpp:1503-1557 | a well-formed queue is read to its end and gives the fold of its decoded commands |
| `CommandReader.ParseIsFoldBefore` | compat/hwc2/HidlComposerHal.cpp:1503-1557 | in every case, an unnoticed last frame included, what parse leaves is the fold of the commands before the first bad frame |
| `CommandReader.SucceedsIff` | compat/hwc2/HidlComposerHal.cpp:1503-1557 | parse reports success if and only if there is no bad frame or the first bad frame is the last of the queue and fits it |
| `CommandReader.LastBadFrameUnnoticed` | compat/hwc2/HidlComposerHal.cpp:1544-1557 | a queue with a malformed last frame is reported as a success |
| `CommandReader.CommandReader.ParseSelectDisplay` | compat/hwc2/HidlComposerHal.cpp:1559-1567 | selects the display, with empty data if it is new; consumes exactly its frame, or refuses and changes nothing |
| `CommandReader.CommandReader.ParseSetError` | compat/hwc2/HidlComposerHal.cpp:1569-1580 | appends the error that the frame encodes, which `DecodesIff` ties to its words; consumes exactly its frame, or refuses and changes nothing |
| `CommandReader.CommandReader.ParseSetChangedCompositionTypes` | compat/hwc2/HidlComposerHal.cpp:1582-1603 | the loop appends the decoded pairs to the selected display; consumes exactly its frame, or refuses and changes nothing |
| `CommandReader.CommandReader.ParseSetDisplayRequests` | compat/hwc2/HidlComposerHal.cpp:1605-1627 | sets the mask and appends the decoded pairs; consumes exactly its frame, or refuses and changes nothing |
| `CommandReader.CommandReader.ParseSetPresentFence` | compat/hwc2/HidlComposerHal.cpp:1629-1640 | closes the fence that it overwrites; consumes exactly its frame, or refuses and changes nothing |
| `CommandReader.CommandReader.ParseSetReleaseFences` | compat/hwc2/HidlComposerHal.cpp:1642-1662 | appends each layer with the descriptor read for it, in order; consumes exactly its frame, or refuses and changes nothing |
| `CommandReader.CommandReader.ParseSetPresentOrValidateDisplayResult` | compat/hwc2/HidlComposerHal.cpp:1664-1670 | sets the stage; consumes exactly its frame, or refuses and changes nothing |
| `CommandReader.CommandReader.ParseSetClientTargetProperty` | compat/hwc2/HidlComposerHal.cpp:1673-1680 | sets format and dataspace; consumes exactly its frame, or refuses and changes nothing |
| `CommandReader.CommandReader.ParseFrame` | compat/hwc2/HidlComposerHal.cpp:1509-1554 | one round of the loop does what the specification says of the frame and keeps the invariant |
| `CommandReader.CommandReader.ResetData` | compat/hwc2/HidlComposerHal.cpp:1683-1699 | every descriptor in the data is closed once, and the reader is empty; also at destruction |
| `CommandReader.CommandReader.Parse` | compat/hwc2/HidlComposerHal.cpp:1503-1557 | from any valid state: old descriptors closed once, the data is that of the parse which `ParseReads` and `ParseReadsBefore` describe by the words, success as specified, paired vectors equal in length, every descriptor in one place |
| `CommandReader.CommandReader.TakeChangedCompositionTypes` | compat/hwc2/HidlComposerHal.cpp:1722-1736 | moves both vectors out together |
| `CommandReader.CommandReader.TakeDisplayRequests` | compat/hwc2/HidlComposerHal.cpp:1738-1754 | moves both vectors out together, with the mask |
| `CommandReader.CommandReader.TakeReleaseFences` | compat/hwc2/HidlComposerHal.cpp:1756-1769 | hands layers and descriptors to the caller, exactly once |
| `CommandReader.CommandReader.TakePresentFence` | compat/hwc2/HidlComposerHal.cpp:1771-1782 | hands the present fence to the caller, exactly once |
| `ReleaseFences.GetReleaseFences` | compat/hwc2/HWC2.cpp:641-674 | succeeds if and only if every layer is live; the caller then owns for each object the descriptor first listed with it; each descriptor is owned or closed, exactly once, also for duplicates and on the error path |
| `ReleaseFences.Emplace` | compat/hwc2/HWC2.cpp:655-661 | a fence for an object that already has one is closed |
| `FenceOwners.Client.EachInOnePlace` | compat/hwc2/HidlComposerHal.cpp:1629-1699 | in every valid state each descriptor that was produced is in the reader, in a caller's Fence, or closed, and in exactly one of them once |
| `FenceOwners.Client.Execute` | compat/hwc2/HidlComposerHal.cpp:912-1000 | the error is that of a refusal, of a queue that cannot be read or does not parse, or of the last command that validates or presents; only a queue that can be read changes the reader |
| `FenceOwners.Client.Present` | compat/hwc2/HWC2.cpp:676-691 | without an error the caller owns the present fence that the parsed queue has for the display, and the reader keeps the rest; on an error the caller owns nothing and the reader holds the data of the queue, or its old data if the queue could not be read |
| `FenceOwners.Client.PresentOrValidate` | compat/hwc2/HWC2.cpp:834-862 | the caller gets a fence exactly if there is no error and the stage is 1, and then owns the display's present fence; after the has-changes error and a variable that was 1 it gets one that owns nothing |
| `FenceOwners.Client.GetReleaseFences` | compat/hwc2/HWC2.cpp:641-674 | the fences move from the reader to the caller or are closed |
| `FenceOwners.Client.DropFence` | compat/hwc2/HWC2.cpp:685-689 | a Fence that goes closes its descriptor, once |
| `LayerTeardown.DetachSound` | compat/hwc2/HWC2.cpp:1045-1068 | detaching a layer keeps: no dangling display pointer, attached layers listed, lists pointing back, destroyLayer called once per layer that is no longer attached |
| `LayerTeardown.DetachListing` | compat/hwc2/HWC2.cpp:249-262 | inside the destructor the re-entrant removal on the emptied list amounts to removal from the swapped-out list |
| `LayerTeardown.RemoveSound` | compat/hwc2/HWC2.cpp:136-140 | a display that told its layers can be freed without leaving a dangling pointer |
| `LayerTeardown.IdIsNew` | compat/hwc2/HWC2.cpp:294-306 | the insertion of a new layer never meets a listed one |
| `LayerTeardown.ToldSound` | compat/hwc2/HWC2.cpp:249-262 | telling the layers of a display, with one call for each that it lists, keeps all invariants |
| `LayerTeardown.TakesSound` | compat/hwc2/HWC2.cpp:136-306 | connecting, disconnecting, destroying a display, creating and dropping a layer keep all invariants |
| `LayerTeardown.DetachedForever` | compat/hwc2/HWC2.cpp:1040-1068 | in every run of these operations a layer that is detached or gone is so at every later point, an object that is gone stays gone, and destroyLayer has been called for the layer exactly once, with the ids it was created with |
| `LayerTeardown.TableIsHistory` | compat/hwc2/HWC2.cpp:136-173 | in every run a display is known if and only if it was connected and not destroyed since, and is marked connected if and only if it was connected and not disconnected since |
| `LayerTeardown.LayerIsHistory` | compat/hwc2/HWC2.cpp:136-306 | in every run a created layer exists until it is dropped, and is attached to its display, with its ids, until it is dropped or its display is destroyed or connected again |
| `LayerTeardown.Device.OnOwningDisplayDestroyed` | compat/hwc2/HWC2.cpp:1045-1068 | detaches once, and does nothing the second time |
| `LayerTeardown.Device.TellLayer` | compat/hwc2/HWC2.cpp:258-262 | the weak reference is never stale; exactly that layer loses its display |
| `LayerTeardown.Device.TellLayers` | compat/hwc2/HWC2.cpp:249-262 | every layer of the display, and no other, loses it, with one destroyLayer call each |
| `LayerTeardown.Device.DestroyDisplay` | compat/hwc2/HWC2.cpp:136-140 | the display goes, its layers are detached, the invariant holds, and a layer that is detached or gone stays so |
| `LayerTeardown.Device.Connect` | compat/hwc2/HWC2.cpp:143-160 | an old display is destroyed first, with its layers detached; a new connected one takes its place |
| `LayerTeardown.Device.Disconnect` | compat/hwc2/HWC2.cpp:161-173 | only marks a display that is known, and keeps layers detached or gone |
| `LayerTeardown.Device.CreateLayer` | compat/hwc2/HWC2.cpp:294-306 | a new layer is attached and listed under the HAL's id; on a HAL error nothing changes |
| `LayerTeardown.Device.DropLayer` | compat/hwc2/HWC2.cpp:1040-1043 | destroyLayer is called if and only if the layer was still attached, and the layer is gone |
| `LayerTeardown.Device.Forward` | compat/hwc2/HWC2.cpp:1070-1078 | a detached layer answers BAD_DISPLAY, an attached one calls the HAL with the ids it was created with |
| `AidlComposer.RunCoupled` | compat/hwc2/AidlComposerHal.cpp:1614-1706 | in every reachable state the readers are the one under key 0 in single mode and one per writer otherwise, writers are exactly for the added displays, and single mode ends for good with the first display that can present from several threads |
| `AidlComposer.LookupIffAdded` | compat/hwc2/AidlComposerHal.cpp:1614-1633 | writer and reader are both found if and only if the display is added, and the reader accepts that display |
| `AidlComposer.Composer.AddDisplay` | compat/hwc2/AidlComposerHal.cpp:1685-1706 | a display that is known keeps its writer and its commands, a new one gets an empty writer; the mode switch replaces the shared reader by one per writer, the new display included; every other writer stays |
| `AidlComposer.Composer.RemoveDisplay` | compat/hwc2/AidlComposerHal.cpp:1635-1647 | writer and own reader go together; the shared reader and every other writer stay |
| `AidlComposer.Composer.Execute` | compat/hwc2/AidlComposerHal.cpp:1120-1172 | drains the display's commands and reports BAD_DISPLAY, the transport's error, or what the errors call for |
| `AidlComposer.Report` | compat/hwc2/AidlComposerHal.cpp:1149-1165 | an index out of range gives BAD_PARAMETER, else the last error of a command that validates or presents, else none |
| `SimplePlayer.RunHasOnePump` | compat/media/SimplePlayer.cpp:186-280 | between any two messages of any run exactly one pending pump message has the current generation if the player is started, and none otherwise |
| `SimplePlayer.PumpRunsOnlyStarted` | compat/media/SimplePlayer.cpp:265-280 | the pump runs only while started, and a stale pump message has no effect but to leave the queue |
| `SimplePlayer.QueueConfiguration` | compat/media/SimplePlayer.cpp:421-459 | every buffer of codec-specific data that the layer submits is the one that was filled |
| `SimplePlayer.DequeueAll` | compat/media/SimplePlayer.cpp:511-528 | dequeuing keeps the player's list equal to the layer's queue |
| `SimplePlayer.FeedSamples` | compat/media/SimplePlayer.cpp:575-629 | samples fill the available buffers of their track in order, the layer submits exactly those, and the loop stops at the end of the input or at a track without a buffer |
| `SimplePlayer.Pump` | compat/media/SimplePlayer.cpp:505-629 | on every track the arrivals are dequeued and the fed samples submitted in the oldest buffers, with the mirrored queues equal throughout |
| `SimplePlayer.Configure` | compat/media/SimplePlayer.cpp:421-459 | after preparation every track has submitted exactly its codec-specific buffers, each as filled, and holds none |
| `SimplePlayer.SimplePlayer.OnDoMoreStuff` | compat/media/SimplePlayer.cpp:265-280 | a current pump message pumps the tracks and posts itself again; a stale one changes no track |
| `SimplePlayer.SimplePlayer.OnMessageReceived` | compat/media/SimplePlayer.cpp:120-285 | every message takes the state where the transition function says, which `StateIsHistory` describes by the messages, keeps one pump and equal queues, and changes the tracks only by preparing, resetting or pumping them |
| `SimplePlayer.StateIsHistory` | compat/media/SimplePlayer.cpp:120-262 | after any messages the state is read off them: there is a source if one was set and no reset since came to a prepared player; it is prepared if a prepare or start opened it when it had a source and no reset followed; it is started if a start came when it was prepared, or prepared it, and neither stop nor reset followed |
| `AudioRender.AudioState.RenderAudio` | compat/media/SimplePlayer.cpp:727-775 | one call writes the next bytes that fit and advances offset, size and the 32-bit counter by them |
| `AudioRender.WritesArePrefix` | compat/media/SimplePlayer.cpp:640-690 | whatever positions the track reports, any number of calls has written a contiguous, in-order prefix of the buffer |
| `AudioRender.RoomIsExact` | compat/media/SimplePlayer.cpp:735-743 | the wrapping difference gives exactly the room in the track |
| `AudioRender.WholeRestKeepsExact` | compat/media/SimplePlayer.cpp:735-774 | a call on a rest of whole frames leaves a rest of whole frames, and a track whose counter stands for the frames it was given and whose backlog fits |
| `AudioRender.CopyIsKnown` | compat/media/SimplePlayer.cpp:735-752 | on a track whose counter stands for its frames a call writes all that is left of the buffer or all the room that the frames not yet played leave, whichever is less |
| `AudioRender.CallMakesProgress` | compat/media/SimplePlayer.cpp:745-752 | on such a track a call copies nothing if and only if nothing is left or the track is full, counted in bytes |
| `AudioRender.BacklogAlwaysFits` | compat/media/SimplePlayer.cpp:640-774 | over any buffers of whole frames and any calls on each, used up or not, the bytes given to the track are whole frames, the 32-bit counter stands for their number, and the backlog stays between nothing and the capacity, in frames and in bytes |
| `AudioRender.ExactIff` | compat/media/SimplePlayer.cpp:727-775 | rendering a buffer keeps such a track so, whatever positions it reports, if and only if what is left of the buffer is whole frames or the track has no room at all |
| `AudioRender.PartialFramesOverrun` | compat/media/SimplePlayer.cpp:763-774 | two buffers of three bytes overrun a track of one four-byte frame while the counter stays zero |
| `PrepareBuild.IncrementalPass` | tools/prepare-build.py:80-105 | over any cached tree the loop is the pass in the order of the inputs and adds to changed_inputs exactly what it rewrote; where no input leads through a rewritten place it ends if and only if every input leads to a place, changes only the places of inputs that were not in place, leaves the others with their times, and agrees with the snapshot if and only if no two inputs that differ share a place; with no links above inputs it reports exactly the inputs that were not in place |
| `WorkTree.PlaceStable` | tools/prepare-build.py:94-103 | a path leads to the same place, through links, as long as what it reads on the way stays and what it misses stays missing |
| `WorkTree.PlaceClear` | tools/prepare-build.py:94-103 | above the place that a path leads to there are only directories, or nothing |
| `WorkTree.SplitJoins` | tools/prepare-build.py:94-103 | the components of a link's target have no slashes and, joined by slashes, are the target |
| `PrepareBuild.StaysPut` | tools/prepare-build.py:84-105 | while the pass rewrites only places that no input leads through, every input leads where it did before |
| `PrepareBuild.PassSteady` | tools/prepare-build.py:84-105 | such a pass fails only at an input that leads nowhere, and changes only the places of inputs that were not in place, with directories above them |
| `PrepareBuild.PassSettles` | tools/prepare-build.py:84-105 | without a conflict, an input in place keeps its entry and time, any other is a fresh copy, and each rewritten place is reported |
| `PrepareBuild.PassAgreesIff` | tools/prepare-build.py:84-105 | such a pass ends if and only if every input leads to a place, and the tree then agrees with the snapshot if and only if no two inputs that differ share a place |
| `PrepareBuild.PlainPass` | tools/prepare-build.py:84-105 | over a tree with no links above inputs the pass ends if and only if no file is above an input; every input is then at its own path, and exactly those that were not in place are reported |
| `PrepareBuild.CachedPass` | tools/prepare-build.py:60-105 | over a cached tree that still has the recorded inputs, whatever else is in it, the pass always ends, brings every input in place, and rewrites exactly the inputs that differ from the recorded ones |
| `PrepareBuild.LinkAboveOverwrites` | tools/prepare-build.py:94-103 | a link to a directory makes two inputs share a place: the pass ends, and one of them is not in place |
| `PrepareBuild.OrderDecides` | tools/prepare-build.py:94-103 | where one input leads through a place at which another is made, the pass ends in one order of the inputs and fails in the other |
| `PrepareBuild.FileAboveInputBlocks` | tools/prepare-build.py:94-103 | a file where the cached tree should have a directory blocks the input below it |
| `PrepareBuild.IdentityAgrees` | tools/build_inputs.py:9-26 | no input of a tree lies below another, and a tree agrees with its own identity |
| `PrepareBuild.IdentityDecides` | tools/build_inputs.py:9-26 | two trees have the same identity if and only if they have the same files, with contents and executable bit, and the same links, at the same paths; directories and times do not matter |
| `PrepareBuild.PassKeepsTree` | tools/prepare-build.py:84-105 | the pass over a directory tree leaves a directory tree: everything above an entry is a directory |
| `PrepareBuild.CompilerInputIff` | tools/prepare-build.py:72-74 | an input counts as a compiler input if and only if it is a file, not a link, whose name is something followed by one of the compiler's suffixes |
| `PrepareBuild.WhyCleanDecides` | tools/prepare-build.py:59-75 | each of the five reasons for a clean run is given if and only if its condition is the first that holds, and the cached tree is used if and only if none does |
| `PrepareBuild.Prepare` | tools/prepare-build.py:52-105 | the reason is the first of the five whose condition holds, and there is none exactly over a completed build of the same key and set of inputs with changes to compiler inputs only; a clean run leaves the snapshot and reports exactly the inputs that were added, removed or differ from the recorded ones; an incremental run also reports what the pass rewrote, and leaves a tree that agrees with the identity of the snapshot under the conditions of the pass; over a tree that still has the recorded inputs it always does, and reports exactly the inputs that differ; what is left is a directory tree |
| `BuildCacheProtocol.RunKeeps` | tools/prepare-build.py:24-29 | the crash invariant holds in every state of every run |
| `BuildCacheProtocol.PublishedDescribesWork` | tools/prepare-build.py:24-29 | with deaths and torn writes anywhere, a build-cache.json that is there is whole and records the inputs of the work tree |
| `BuildCacheProtocol.PublishedWasPrepared` | tools/prepare-build.py:111-126 | what finish publishes is a record that a prepare wrote when its tree was done, and no prepare has touched the tree since |
| `StageRuntime.WantedInClosed` | tools/stage-runtime.py:26-44 | every set that holds the roots and the needs of its members holds every wanted name |
| `StageRuntime.Initial` | tools/stage-runtime.py:26-30 | the queue starts with every root, each asked for by the command line or an installed file |
| `StageRuntime.StageableIff` | tools/stage-runtime.py:33-40 | a name can be staged if and only if it is bare and some search directory holds it, and its file is that of the first one |
| `StageRuntime.Stage` | tools/stage-runtime.py:26-44 | the worklist ends; it succeeds if and only if every name reachable without passing a provided one is bare and found; it then stages exactly those, each from the first directory in the order of the search that has it; a failure names a wanted file and who needs it |
| `BufferRegistry.Registry.Release` | arlinux/bionic-vulkan/native.cpp:80-90 | one less reference; the last one erases the entry and yields the buffer to give back |
| `BufferRegistry.InsertNeverCollides` | arlinux/bionic-vulkan/native.cpp:60-61 | in every interleaving the inserted handle has no entry |
| `BufferRegistry.FreedOnce` | arlinux/bionic-vulkan/native.cpp:39-90 | in every interleaving a buffer is given back at most once, and has been, or is about to be by the thread of the last release, if and only if its releases are one more than its retains |
| `BufferRegistry.FoundUntilReleased` | arlinux/bionic-vulkan/native.cpp:66-70 | the lookup finds a buffer exactly from its publication to its last release |
| `EdgeExpansion.Expand` | arlinux/diagnostics/polygon_probe.cpp:76-81 | six indices per window, in order: the outline of the window, or zeros if it contains the sentinel; for an indexed strip with restart, and for every topology without sentinels, the lines in the list are the sides of the triangles that Vulkan assembles, in order, zeroed outlines apart |
| `EdgeExpansion.SameVertexFetched` | arlinux/diagnostics/polygon_probe.cpp:66-92 | for every position the reference draw over the expanded list and the draw under test fetch the same vertex, indexed or not, with restart or without |
| `EdgeExpansion.StripDrawsSegments` | arlinux/diagnostics/polygon_probe.cpp:78-81 | the strip windows that are drawn are, in order, exactly the consecutive triples of each stretch between sentinels |
| `EdgeExpansion.StripDrawsTriangles` | arlinux/diagnostics/polygon_probe.cpp:78-81 | with sentinels anywhere they have the sides of the triangles of the restarted strips, in the same order |
| `EdgeExpansion.DrawsTriangles` | arlinux/diagnostics/polygon_probe.cpp:78-81 | without sentinels list, strip and fan give the sides of the topology's triangles, in order |

## Left out

- Attachments, images and views of `inspect_batch`, the registry's XML and its aliases, the top-level counts and status of `inspect`, JSON and the command line: they are copied or counted and decide no finding.
- The text of findings and notes; a finding here is its kind, position and the commands it names.
- The memory properties behind a memory type index: the flags of an allocation are given, or unknown.
- The list of at most eight uncovered ranges that a finding of the upload inspector quotes.
- PrepareBuild.IncrementalPass: links above an input are followed inside the tree; at one that leads out of it the modelled pass stops (`Escapes`), because what is there is not part of the tree.
- PrepareBuild.Prepare: the checks that output and source do not overlap, and that no link of the snapshot leads out of it, are not modelled.
- Copying of files and modes by `stage-runtime.py`, and the text of its errors.
- `SimplePlayer`: output buffers and their rendering to a surface, format changes, and the reply that `setDataSource` posts (on success it posts a variable that was never set).
- AudioRender.AudioState.RenderAudio: the byte counts are unbounded numbers; only the frame counters wrap, as in the source.
- `media_codec_release_output_buffer` and the masking of return codes: they depend on code outside the repository.
- Virtual displays, and the setters of layers and displays that only forward.
- LayerTeardown.Device.Forward: stands for all guarded operations of a layer; their arguments are not modelled.
- `hasChanges` and `takeClientTargetProperty`: plain reads.
- The HIDL and AIDL transports, and the parsing of AIDL results: the errors of an execution are given.
- A native buffer without a handle: it is given back before the registry sees it.
- Restart in triangle fans and lists: the probe expands them as if there were none, and uses restart with strips only.
- The point mode of the probe, its rendering and its pixel comparison.
- Probes, services and wrappers elsewhere in the repository: device input and output, or thin forwarding.
