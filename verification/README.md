# Verified models of the driver, bridge, proxy and build kernels

This project models, in Dafny, the parts of the repository whose correctness is easiest to get wrong, and
proves what they promise. Each module stands for one kernel and says at its top what it takes as given.

| module | models |
|---|---|
| NetworkLifecycle | start, stop, dispose and transport close of the page network engine, cut at every await |
| NetworkStore, Utf8 | the bounded request store with its byte accounts, and the truncation of stored bodies |
| ShellCommand | the replay command and a lexer for shell quoting (sections 2.2.1 to 2.2.3 of the POSIX Shell Command Language) |
| Screencast, FrameSize | the recording machine with deferred stops, in-flight acks and a byte limit; the size of a base64 frame |
| DomSpread, BudgetSelection, Omissions, SnapshotReport | which snapshot candidates fit the entry budget, and the account of the others |
| SchemaValidation | the bounded schema validator for response data |
| BridgeAutostart | the lock-file protocol of any number of processes that may start a bridge |
| TrustedInput | authorised clicks and fills under every possible failure |
| RateLimiter | the proxy's fixed-window limiter and its sweeper |
| JsonRedaction | redaction of captured JSON bodies |
| BuildDigest | the bytes that the build identity hashes |
| LocatorResolution | scoring of candidates and fail-closed resolution |
| Prelude, Sorting, Json | shared value types, the stable sort of the host language, JSON values |

## How the models are built

The two capture engines and the lock protocol are interleavings of suspended calls. They are modelled as state
machines whose events are the uninterrupted pieces of code between two awaits, file operations or probes; the
environment chooses the events, how each call settles and what each callback does. Their theorems quantify over
all finite sequences of events; an event that is not enabled is skipped. The network engine needs one rule of the
host language: when a promise settles, all its waiting calls are resumed in registration order before any job
queued later. `SplitResumptionLeaks` shows what happens without it.

Code that updates objects in place is modelled by classes (`NetworkStore`, `Validation`, `Operation`,
`RateLimiter`, `NetworkRedactor`) and by methods with the loops of the source. Every such method is tied to a
specification about which the lemmas speak. In `TrustedInput` every answer of the outside world is an arbitrary
function of the moment; the methods record a trace, a monitor accepts it, and the lemmas say what any accepted
trace guarantees.

Scores are real numbers. Distances in `LocatorResolution` are compared by their squares. Group keys, request ids
and client addresses are only compared for equality and are type parameters or an abstract type.

## Where the code does less than one may expect

For each of these the exact condition is proved under which the property holds, and a case in which it fails.

- A capture start that is refused for its body limit has already changed the entry limit without evicting, so the
  store can exceed its limit until the next insertion or start (`RefusedStartLeavesOverflow`; `Configure` says
  exactly when).
- A seed frame whose consumer throws is counted, but the byte check after it is skipped
  (`SwallowedOverrunStaysActive`; `LimitKeptExactly` says exactly when the limit survives).
- A path with a lone surrogate is hashed like one with U+FFFD (`LoneSurrogatesCollide`), and a backslash like a
  slash (`BackslashesCollide`); `StreamsAgreeExactly` says exactly when two lists are hashed alike.
- With a negative ambiguity delta the first listed of the best candidates wins (`NegativeDeltaDependsOnOrder`);
  `WinnerIgnoresOrderExactly` says exactly when the winner does not depend on the order.
- Counts merged under "other" lose the count of a kept key of that name (`KeptOtherIsLost`; `CountsAddUp` says exactly
  when they add up); regions never have that name.
- A field with the empty name is never redacted on account of that name (`SensitiveEmptyNameShows`); values below
  sensitive names are hidden exactly when the empty name is not one of them (`NamesProtectExactly`,
  `BodiesAreProtectedExactly`). The entries of an array have no field name.
- The limiter admits the first request of a window even when the limit is not positive (`BoundIsTight`); a minute
  admits at most twice the limit exactly when the limit is positive (`LimitBoundsExactly`).
- A letter or Backspace stays down when a check after its press fails (`FillCanLeaveLetterDown`);
  `PerformAuthorizedTrustedAction` says which outcomes leave which key down, and `LetterIsLiftedExactly` when a trace
  lifts one. Modifiers and mouse buttons always come up.
- A redactor that throws on a body has the bytes of the body to be replaced subtracted without removing it
  (`FailedRedactionLosesBytes`), so the byte count stays right exactly when that body has none (`UpsertRequest` and
  `FinishResponse`). No store of secrets in this repository throws; a supplied one may.

## Model

| member | source | states |
|---|---|---|
| `NetworkLifecycle.OwnerSafety` | packages/driver/src/page-network-engine.ts:166-205 | over every run of start, stop, dispose, aborts, transport closes and settling CDP calls, nothing is recorded twice for a capture owner; a grant follows its acquire call, a release follows a grant and never follows the owner's recorded close |
| `NetworkLifecycle.NoLeakWhenQuiet` | packages/driver/src/page-network-engine.ts:302-390 | over every run, once no CDP call of a start or stop is outstanding, an owner whose transport did not close is held exactly when it belongs to the active capture; a disposed engine is not active |
| `NetworkLifecycle.OneActiveCapture` | packages/driver/src/page-network-engine.ts:195-210 | over every run at most one capture is active, and none in a disposed engine; a capture marked as asked to stop is not active (that every stop of a starting capture has its effect is `EndedForGood`) |
| `NetworkLifecycle.EndedForGood` | packages/driver/src/page-network-engine.ts:203-210 | a stop, also one that waited for an earlier start, or a dispose ends the current capture, starting or active, an abort of its signal one that is starting, and a close of its transport one that listens: in every later run that capture is never active, and once everything has settled its owner is not held unless its close was recorded |
| `NetworkLifecycle.StopMeetsStart` | packages/driver/src/page-network-engine.ts:203-207 | a stop that meets a starting capture releases nothing itself; in every later run one more call of stop waits as long as that start has not settled |
| `NetworkLifecycle.WaitingStartBegins` | packages/driver/src/page-network-engine.ts:172-193 | a start called during a stop changes no capture until the stop has settled and then begins its own |
| `NetworkLifecycle.AbortedWaitingStart` | packages/driver/src/page-network-engine.ts:172-193 | a start whose signal fires while it waits for a stop begins a capture that is never active in any later run and whose owner is not held once everything has settled, whichever of the waiting starts it is |
| `NetworkLifecycle.ReadyAgain` | packages/driver/src/page-network-engine.ts:195-216 | once its start has returned, an active capture can be stopped with one release, and then the engine is ready for another start |
| `NetworkLifecycle.NoStartAfterDispose` | packages/driver/src/page-network-engine.ts:166-168 | a disposed engine refuses every start |
| `NetworkLifecycle.NoStartAfterClose` | packages/driver/src/page-network-engine.ts:382-390 | a closed transport is recorded, ends its capture and makes every start refused |
| `NetworkLifecycle.RefusedStart` | packages/driver/src/page-network-engine.ts:166-175 | an active or starting capture, a fired signal and options that are not valid leave all captures and the log as they were |
| `NetworkLifecycle.StepKeepsInv` | packages/driver/src/page-network-engine.ts:308-398 | every uninterrupted piece of the protocol, whichever way its CDP call settled, keeps the engine invariant |
| `NetworkLifecycle.AcquireKeepsInv` | packages/driver/src/page-network-engine.ts:310-321 | the invariant survives a settled acquire, in particular a grant that is no longer wanted because the start was stopped, aborted, disposed or superseded meanwhile: only a starting or active capture is left holding its owner |
| `NetworkLifecycle.EnsureDomainKeepsInv` | packages/driver/src/page-network-engine.ts:314-321 | the invariant survives a settled ensureDomain, whether the capture becomes active or is cleaned up |
| `NetworkLifecycle.StopSettlesKeepsInv` | packages/driver/src/page-network-engine.ts:203-209 | the invariant survives the settling of a stop, after which every start that awaited it goes on in registration order without checking anything again |
| `NetworkLifecycle.CloseKeepsInv` | packages/driver/src/page-network-engine.ts:382-390 | the invariant survives a transport close, of the current capture or of any other |
| `NetworkLifecycle.UndisturbedStart` | packages/driver/src/page-network-engine.ts:184-193 | undisturbed, a start of an idle engine leads to an active capture that holds its owner |
| `NetworkLifecycle.StopReleases` | packages/driver/src/page-network-engine.ts:195-210 | stopping an active capture records exactly one release of its owner, in the same step |
| `NetworkLifecycle.SplitResumptionLeaks` | packages/driver/src/page-network-engine.ts:166-193 | a concrete run: if two starts waiting for the same stop could be resumed with other jobs between them, the first owner would stay held with nothing left to release it |
| `Utf8.BoundUtf8Text` | packages/driver/src/page-network-engine.ts:563-577 | the result is the longest prefix that fits the limit and splits no surrogate pair; storedBytes is the encoded length of the kept text and truncated says exactly whether the input exceeds the limit |
| `Utf8.BoundedTextIsUnique` | packages/driver/src/page-network-engine.ts:563-577 | the contract of the truncator leaves it no choice, and an untruncated result is the whole input |
| `Utf8.EncodeSplit` | packages/driver/src/page-network-engine.ts:623-625 | cutting a string anywhere but inside a surrogate pair cuts its UTF-8 encoding, so counting bytes character by character is right |
| `Utf8.Utf8LengthMonotone` | packages/driver/src/page-network-engine.ts:570-575 | longer prefixes never encode to fewer bytes, so stopping at the first character that does not fit loses nothing |
| `ShellCommand.ToCurl` | packages/driver/src/page-network-engine.ts:279-300 | lexing the printed command by the shell's quoting rules gives exactly the method, the URL, each header line and the body; a mutating request is refused exactly when it was not reviewed |
| `ShellCommand.ArgumentsMean` | packages/driver/src/page-network-engine.ts:279-300 | the arguments by position: the method, the URL, one -H with name and value for every header in order, and the body last |
| `ShellCommand.QuotedLexes` | packages/driver/src/page-network-engine.ts:649-651 | from inside single quotes an escaped value, with any number of quotes in it, is read back unchanged |
| `ShellCommand.LexJoined` | packages/driver/src/page-network-engine.ts:294-298 | parts that each mean one word, joined by spaces, lex to the list of those words |
| `NetworkStore.NetworkStore.StoreMeaning` | packages/driver/src/page-network-engine.ts:400-554 | in every valid state the order has no duplicates and lists exactly the stored ids, the byte count and the debt together are the sum over the stored bodies, so the count is right exactly when there is no debt; the bytes of an entry are the lengths of the UTF-8 encodings of its two bodies, and the stored ids are what remains of the insertions after the evictions |
| `NetworkStore.NetworkStore.Clear` | packages/driver/src/page-network-engine.ts:219-225 | everything is forgotten, counters included, and the limits stay |
| `NetworkStore.NetworkStore.EvictOverflow` | packages/driver/src/page-network-engine.ts:543-554 | the newest entries within the limit remain, untouched, every eviction is counted, and the count is not negative: of a debt larger than what is stored the rest is forgiven |
| `NetworkStore.NetworkStore.EvictOldest` | packages/driver/src/page-network-engine.ts:545-551 | the oldest id goes with its entry and its bytes, and moves from the stored to the evicted |
| `NetworkStore.NetworkStore.UpsertRequest` | packages/driver/src/page-network-engine.ts:400-436 | a stale event changes nothing; a new id is inserted last with its bounded body; a known id keeps its object and place and gets a new request body; all other entries stay as they were; when the redactor throws, nothing is stored or evicted, and the debt grows by exactly the bytes of the body to be replaced |
| `NetworkStore.NetworkStore.MakeBody` | packages/driver/src/page-network-engine.ts:480-541 | the stored body, its size, and the truncated, omitted and present flags, in each of the three cases: no body, a body redacted away, a redacted body cut to the limit |
| `NetworkStore.NetworkStore.FinishResponse` | packages/driver/src/page-network-engine.ts:453-470 | a response body is stored only for the current capture and only if the id still names the same object; otherwise nothing at all changes; when the redactor throws, the body stays and the debt grows by exactly its bytes |
| `NetworkStore.ResponseAfterClear` | packages/driver/src/page-network-engine.ts:453-466 | a response requested before a clear never reaches the request captured under the same id afterwards |
| `NetworkStore.NetworkStore.Configure` | packages/driver/src/page-network-engine.ts:174-182 | a start with valid limits evicts down to them; exactly when a refused start leaves more entries than the limit it has just set |
| `NetworkStore.RefusedStartLeavesOverflow` | packages/driver/src/page-network-engine.ts:174-182 | a concrete case: a start refused for its body limit has already lowered the entry limit and leaves two entries where one is allowed |
| `NetworkStore.FailedRedactionLosesBytes` | packages/driver/src/page-network-engine.ts:480-508 | a run of the store, for every body that fits: after the redactor has thrown on its successor the body is still stored and the count is zero |
| `Screencast.RecordingSafety` | packages/driver/src/page-screencast-engine.ts:290-438 | over every run the consumer of a recording sees frames numbered from 0 without gaps, then at most one summary whose counts match them; an owner is released at most once and only after it was acquired, and a complete recording holds no owner and runs no screencast unless its transport closed; at most one recording is unfinished (that frames reach the consumer at all is `FrameReachesConsumer`) |
| `Screencast.FrameReachesConsumer` | packages/driver/src/page-screencast-engine.ts:290-330 | a frame is shown in the step in which it arrives, or in which its ack succeeds, if and only if it has data and the recording is starting or active: it is numbered with the old count and adds one and its bytes to the counts, the summary follows only if the step completes the recording, and stopping is requested exactly when the callback throws or the total reaches the limit, at once while active, deferred while starting; otherwise nothing changes |
| `Screencast.FrameWaitsForAck` | packages/driver/src/page-screencast-engine.ts:290-302 | a frame that needs an ack waits for it with its data, unseen and uncounted; an ack that fails stops the recording without showing the frame |
| `Screencast.SeedReachesConsumer` | packages/driver/src/page-screencast-engine.ts:332-348 | the same for the seed screenshot: it is shown exactly when it has data, the recording is active and no frame came first, and it stops the recording exactly when its callback returns and it reaches the limit |
| `Screencast.SeedIsAskedFor` | packages/driver/src/page-screencast-engine.ts:332-334 | the screenshot is asked for exactly when the recording has no frame yet, or one was asked for already |
| `Screencast.StoppedForGood` | packages/driver/src/page-screencast-engine.ts:227-285 | a stop, a dispose, the duration timer, the signal and a closed transport end the current recording: its reason is the first one given but for what the listeners of a start put; in every later run it is never active, and once everything has settled it is complete, its frames and its one summary seen in order |
| `Screencast.UndisturbedStart` | packages/driver/src/page-screencast-engine.ts:175-215 | undisturbed, a start leads to an active recording without frames that holds its owner |
| `Screencast.NoRecordingAdded` | packages/driver/src/page-screencast-engine.ts:179-180 | in every run after a dispose or a closed transport no recording is added |
| `Screencast.AbortedStart` | packages/driver/src/page-screencast-engine.ts:185-223 | a start whose signal has fired acquires nothing and is complete at once, with the reason abort |
| `Screencast.OneAtATime` | packages/driver/src/page-screencast-engine.ts:181-183 | a start while a recording is unfinished changes nothing |
| `Screencast.EveryRecordingCompletes` | packages/driver/src/page-screencast-engine.ts:350-407 | over every run, once every start and stop has settled, every recording but an active current one is complete |
| `Screencast.RecordingsMoveForward` | packages/driver/src/page-screencast-engine.ts:175-407 | every step only moves a recording's phase forward and only appends to what its consumer sees |
| `Screencast.ByteLimit` | packages/driver/src/page-screencast-engine.ts:281-365 | over every run whose seed frame callbacks return normally, an active recording is below the byte limit and after activation only the last frame can cross it, however many acks are in flight |
| `Screencast.LimitKeptExactly` | packages/driver/src/page-screencast-engine.ts:332-348 | a step keeps the byte limit if and only if it does not deliver a seed frame of at least the limit to a callback that throws |
| `Screencast.SwallowedOverrunStaysActive` | packages/driver/src/page-screencast-engine.ts:332-348 | a concrete run that ends with an active recording at its limit, because the error of the seed frame's consumer is swallowed together with the byte check |
| `Screencast.StepKeepsInv` | packages/driver/src/page-screencast-engine.ts:175-438 | every event keeps the engine invariant |
| `FrameSize.DecodedByteLengthIsExact` | packages/driver/src/page-screencast-engine.ts:510-515 | the size computed from the length and padding of a base64 text, however white space is spread over it, is the number of bytes it encodes |
| `DomSpread.SpreadDomRun` | packages/driver/src/snapshot-page-script.ts:360-374 | the worklist terminates and returns the run in breadth-first midpoint order of its sorted elements, or as it is when it has at most two |
| `DomSpread.SpreadRunPermutes` | packages/driver/src/snapshot-page-script.ts:360-374 | the spread run is a permutation of the run |
| `DomSpread.SpreadOrderIsPermutation` | packages/driver/src/snapshot-page-script.ts:363-372 | every position is emitted exactly once |
| `DomSpread.MiddleComesNext` | packages/driver/src/snapshot-page-script.ts:363-370 | after the first and the last position comes the middle one, or the one before the middle |
| `DomSpread.DrainLevel` | packages/driver/src/snapshot-page-script.ts:366-372 | the queue drains all ranges of one depth before it reaches the next depth |
| `DomSpread.EmittedCount` | packages/driver/src/snapshot-page-script.ts:366-372 | after all ranges of depth below d at most 2^d + 1 positions have been emitted |
| `DomSpread.TakenAreEvenlySpread` | packages/driver/src/snapshot-page-script.ts:360-374 | once 2^d + 1 elements are taken, neighbouring taken positions of a run of n are at most (n - 2) / 2^d + 1 apart |
| `BudgetSelection.GroupBy` | packages/driver/src/snapshot-page-script.ts:381-396 | the map holds each key once, with all the candidates of that key in their order |
| `BudgetSelection.TakeTurns` | packages/driver/src/snapshot-page-script.ts:400-412 | taking turns selects exactly the first rounds of every group and the next turn of the first few groups, adds nothing else, and stops short of the limit only when everybody is taken |
| `BudgetSelection.SelectCandidateBudget` | packages/driver/src/snapshot-page-script.ts:376-416 | the result has min(n, max(0, maxEntries)) candidates in document order and holds everybody who is served before one of them: by score, then by turn in the group's spread, then by where the group starts |
| `BudgetSelection.SelectionIsUnique` | packages/driver/src/snapshot-page-script.ts:376-416 | this determines the selection |
| `BudgetSelection.TopScores` | packages/driver/src/snapshot-page-script.ts:388-415 | no unselected candidate scores higher than a selected one |
| `BudgetSelection.SharesAreFair` | packages/driver/src/snapshot-page-script.ts:400-412 | the selected members of two groups of one score differ by at most one, unless the smaller group is selected whole; the one more goes to the group one of whose members stands before every member of the other |
| `BudgetSelection.PicksArePrefix` | packages/driver/src/snapshot-page-script.ts:397-409 | the picks of a group are a prefix of its spread order |
| `BudgetSelection.PicksAreEvenlySpread` | packages/driver/src/snapshot-page-script.ts:360-416 | a group that gets at least 2^d + 1 entries has at most (size - 2) / 2^d members left out between neighbouring picks |
| `Omissions.CandidateRegion` | packages/driver/src/snapshot-page-script.ts:297-311 | the region is made of role and label of the nearest landmark on the way up, and is "unscoped" exactly when there is none |
| `Omissions.RegionIsNotOther` | packages/driver/src/snapshot-page-script.ts:297-311 | no region is called like the merged rest of the counts |
| `Omissions.RegionIsPlainKey` | packages/driver/src/snapshot-page-script.ts:297-311 | no region is a name that plain objects inherit, or a number |
| `Omissions.CategoryIsPlainKey` | packages/driver/src/snapshot-page-script.ts:285-295 | no category is one |
| `Omissions.CategoryTells` | packages/driver/src/snapshot-page-script.ts:285-295 | two elements have the same category exactly when the first of landmark, role, heading level and interactivity that each of them has is the same |
| `Omissions.CountOmissions` | packages/driver/src/snapshot-page-script.ts:418-429 | the counts are those of the values, most frequent first; beyond the limit the rest is merged into one count |
| `Omissions.CountsAddUp` | packages/driver/src/snapshot-page-script.ts:418-429 | the reported counts add up to the number of values if and only if nothing was merged or no kept key is the name of the merged rest |
| `Omissions.RestIsMerged` | packages/driver/src/snapshot-page-script.ts:418-429 | beyond the limit the keys before the last place keep their counts in order, and all others become one count under the name of the rest: in the place of a kept key of that name if there is one, behind them otherwise |
| `Omissions.KeptOtherIsLost` | packages/driver/src/snapshot-page-script.ts:418-430 | a concrete list, with any keys, in which a kept key of the merged name loses its count |
| `SnapshotReport.BuildReport` | packages/driver/src/snapshot-page-script.ts:514-561 | candidates split exactly into selected, left out by the budget and filtered by the query; total is the sum of the last two, both breakdowns add up to it and count exactly the omitted candidates, and truncated says whether the budget left any out |
| `SnapshotReport.OmittedSplits` | packages/driver/src/snapshot-page-script.ts:514-519 | what is not selected is what the query filtered together with the eligible candidates not selected, with multiplicity |
| `SnapshotReport.KeysArePlain` | packages/driver/src/snapshot-page-script.ts:418-430 | so whatever the report counts, a plain object counts as the record of the model does |
| `SnapshotReport.ChosenAreEntries` | packages/driver/src/snapshot-page-script.ts:516-519 | the eligible candidates found in the selected set are the selection itself, in its order |
| `SnapshotReport.RegionsAddUp` | packages/driver/src/snapshot-page-script.ts:554-557 | the region counts lose no omission by merging |
| `SchemaValidation.ValidateAuthenticatedJsonData` | packages/driver/src/authenticated-json.ts:63-121 | the result is empty if and only if there is no schema or the data conforms and the unbounded traversal needs at most 100 nodes and depth 8; within those bounds it is the first ten issues of that traversal; on every input at most ten issues are returned and at most 110 nodes counted |
| `SchemaValidation.NoIssueMeansConforms` | packages/driver/src/authenticated-json.ts:67-118 | the unbounded traversal reports nothing exactly when the data conforms to the schema, said of the rule's own members: declared type, enumeration, required fields, properties that are present, items |
| `SchemaValidation.ReadMeans` | packages/driver/src/authenticated-json.ts:74-117 | what is read of a rule is all that its meaning depends on, member by member: a type that is no string or empty, an enumeration or list of required fields that is no array and properties that are no object say nothing |
| `SchemaValidation.TypeMeans` | packages/driver/src/authenticated-json.ts:123-140 | the type names by the shape of the value; an integer is a number equal to a whole number, so 1.5 is none |
| `SchemaValidation.JsonTypeMeans` | packages/driver/src/authenticated-json.ts:142-146 | the type reported as received is that of the value |
| `SchemaValidation.Validation.Visit` | packages/driver/src/authenticated-json.ts:67-118 | a visit follows the unbounded traversal of its node: issues only grow, ten known issues stop all counting, and leaving no trace means that nothing was wrong and every limit was kept |
| `SchemaValidation.Validation.CheckRequired` | packages/driver/src/authenticated-json.ts:85-91 | missing required fields are reported in order until ten issues are known |
| `SchemaValidation.Validation.VisitProperties` | packages/driver/src/authenticated-json.ts:92-103 | declared properties that are present are visited in order; a property schema that is no object is an issue |
| `SchemaValidation.Validation.VisitItems` | packages/driver/src/authenticated-json.ts:105-117 | items are visited in order until ten issues are known |
| `BridgeAutostart.LockSafety` | packages/cli/src/bridge-autostart.ts:299-458 | over every run of any number of processes at most one is between acquiring and releasing the lock, whoever acquired it and is done has released it, every success was reported with the endpoint healthy, and at most one process both spawns and succeeds |
| `BridgeAutostart.SpawnSafety` | packages/cli/src/bridge-autostart.ts:354-458 | over every run nothing is spawned and no configuration written outside the lock or for a connection the policy rejects; a pid file or a win follows the process's own spawn; nobody spawns after a process that spawned found its bridge healthy |
| `BridgeAutostart.StepKeepsInv` | packages/cli/src/bridge-autostart.ts:268-458 | every operation of every process keeps the invariant |
| `BridgeAutostart.EffectStepKeepsProcess` | packages/cli/src/bridge-autostart.ts:339-431 | whatever a process does to the world may follow what was done before (a lock is created only while nobody holds it, a spawn or a configuration only by the holder with a permitted connection), and the process fits the world afterwards |
| `BridgeAutostart.WriteFailureKeepsInv` | packages/cli/src/bridge-autostart.ts:100-127 | a lock file that was created but not filled, until it is removed again, lets nobody else in and makes nobody the holder |
| `BridgeAutostart.MayRecordMeans` | packages/cli/src/bridge-autostart.ts:339-458 | what may follow a log in the terms of that log: creation only when nobody is in the lock, everything else only by who is in it |
| `BridgeAutostart.HolderReleases` | packages/cli/src/bridge-autostart.ts:354-458 | in every run, whatever else happens, a process that takes 2 * delays + 14 steps from inside the lock, or 2 * delays + 17 from anywhere, is done and has released what it acquired |
| `BridgeAutostart.OwnStepDescends` | packages/cli/src/bridge-autostart.ts:299-458 | every step of its own brings a process strictly closer to its end, however its operations turn out |
| `BridgeAutostart.OneWinner` | packages/cli/src/bridge-autostart.ts:388-445 | two processes that spawned and found their bridge healthy are the same |
| `BridgeAutostart.LoneProcessStartsTheBridge` | packages/cli/src/bridge-autostart.ts:339-458 | an undisturbed process with a permitted connection and a token goes stage by stage from the free lock over one spawn, the pid file and a healthy poll to success with the lock released |
| `BridgeAutostart.BeginInHealthyWorld` | packages/cli/src/bridge-autostart.ts:299-309 | a call made when the endpoint is healthy succeeds after two steps of its own, whatever the other processes do, without a lock, a spawn or any other effect |
| `BridgeAutostart.HealthyEndpointIsEnough` | packages/cli/src/bridge-autostart.ts:268-290 | so does a process that waits for the lock with time left and is told the token |
| `BridgeAutostart.HealthPreventsSpawn` | packages/cli/src/bridge-autostart.ts:350-390 | in a healthy world a process whose operations work never spawns and never fails, wherever it is before its last look at the endpoint, and with enough steps it is done, successfully |
| `BridgeAutostart.FailsExactly` | packages/cli/src/bridge-autostart.ts:268-458 | a process fails exactly when its own step is refused: by the policy, a missing token, an operation that fails or the end of its patience; then it never succeeds in any later run |
| `BridgeAutostart.MissingTokenIsMade` | packages/cli/src/bridge-autostart.ts:365-386 | a missing token is written to the configuration and resolved again where the URL comes from there; elsewhere it is only passed on |
| `TrustedInput.Operation.PerformAuthorizedTrustedAction` | packages/driver/src/page-ref-engine.ts:159-231 | for every outcome of every check, call and send, and every bounding box, the trace is one the monitor accepts and nothing is left pressed, held or acquired but a letter after a failure; which letter is left down, if any, is said for every outcome; success means that nothing failed, the policy allowed it, the box is finite with an area, and the inputs written out in `WholeAction` were sent, in order, the mouse at x + width / 2 and y + height / 2 or where the page said; when nothing goes wrong it succeeds |
| `TrustedInput.Operation.WithSession` | packages/driver/src/page-trusted-input.ts:161-175 | the session is released whatever happens after it was acquired |
| `TrustedInput.Operation.DispatchClick` | packages/driver/src/page-trusted-input.ts:80-123 | a click moves, presses and releases with the same button and count, after its point and count were found valid |
| `TrustedInput.Operation.FillField` | packages/driver/src/page-trusted-input.ts:43-78 | a fill clicks, selects all with the platform's modifier, deletes and types; it leaves the letter or Backspace down exactly when everything went well until that key was down and one of the two checks that follow fails |
| `TrustedInput.Operation.SelectAll` | packages/driver/src/page-trusted-input.ts:53-62 | the modifier is lifted even when pressing it or the letter failed |
| `TrustedInput.Operation.CheckedSend` | packages/driver/src/page-trusted-input.ts:149-159 | success means that the input was sent and that the last thing that happened is a passing check; any failure is remembered |
| `TrustedInput.SendsAreAuthorised` | packages/driver/src/page-ref-engine.ts:159-197 | in an accepted trace every input that is not a cleanup directly follows a passing check, made after permission was given, with no failure before it |
| `TrustedInput.OnlyCleanupAfterFailure` | packages/driver/src/page-trusted-input.ts:80-175 | after the first failed check, call or send only cleanup inputs are sent |
| `TrustedInput.PressIsReleased` | packages/driver/src/page-trusted-input.ts:100-121 | a press that reached the page is followed, as the next input, by the release with the same point, button and count |
| `TrustedInput.ModifierIsLifted` | packages/driver/src/page-trusted-input.ts:53-62 | an attempted press of the modifier is followed by an attempt to lift it |
| `TrustedInput.LetterIsLiftedExactly` | packages/driver/src/page-trusted-input.ts:58-65 | a letter or Backspace that went down is lifted by the next input if and only if no check fails before it |
| `TrustedInput.LetterStaysDown` | packages/driver/src/page-trusted-input.ts:58-65 | once a check has failed while it is down, no later input lifts it |
| `TrustedInput.FillCanLeaveLetterDown` | packages/driver/src/page-trusted-input.ts:43-78 | a run of the whole action, for every box with a usable centre, text and modifier: only the check behind the letter of select-all fails, and the letter is still down when everything is over |
| `TrustedInput.LetterMeans` | packages/driver/src/page-trusted-input.ts:53-65 | in an accepted trace the monitor remembers a letter exactly when it went down and no later input lifts it |
| `TrustedInput.SessionIsReleased` | packages/driver/src/page-trusted-input.ts:161-175 | an acquired session is released later |
| `RateLimiter.EveryClientIsBounded` | proxy/src/helpers.ts:123-152 | whatever the clients ask and whenever sweeps come, any half-open minute admits at most 2 * max(1, limit) - 1 requests of a client and any closed one at most 2 * max(1, limit) |
| `RateLimiter.ClientsAreIsolated` | proxy/src/helpers.ts:123-152 | the decisions for a client are those it would get alone, with nothing ever swept |
| `RateLimiter.AdmissionsAreBounded` | proxy/src/helpers.ts:135-151 | the bound for one client |
| `RateLimiter.RefusedOnlyWhenFull` | proxy/src/helpers.ts:144-146 | a request is refused only if at least max(1, limit) were admitted in the minute before it |
| `RateLimiter.BoundIsTight` | proxy/src/helpers.ts:135-151 | for every limit, positive or not, a history that reaches both bounds |
| `RateLimiter.LimitBoundsExactly` | proxy/src/helpers.ts:135-151 | every closed minute admits at most 2 * limit, and every half-open one at most 2 * limit - 1, if and only if the limit is at least 1 |
| `RateLimiter.RateLimiter.IsLimited` | proxy/src/helpers.ts:135-151 | the decision and the new store are those of one request |
| `RateLimiter.RateLimiter.RemoveExpired` | proxy/src/helpers.ts:125-132 | the sweep removes exactly the expired windows |
| `JsonRedaction.BodiesAreProtectedExactly` | packages/driver/src/network-redaction.ts:183-216 | bodies that differ only below fields with sensitive names give the same text, fields and references, for all bodies, if and only if the empty name is not sensitive |
| `JsonRedaction.OutermostSecretsAreReplaced` | packages/driver/src/network-redaction.ts:195-209 | a position is replaced, and reported by its path, if and only if a secret stands there and none above it: the value of a member with a name that is not empty, and the name is sensitive, or it is not safe and the value is a string that looks like a credential |
| `JsonRedaction.ReplacedExactly` | packages/driver/src/network-redaction.ts:195-268 | below no replaced value, a value is replaced if and only if it is such a secret: nothing is missed, nothing is replaced needlessly |
| `JsonRedaction.NamesProtectExactly` | packages/driver/src/network-redaction.ts:195-209 | the same for the walk of any value |
| `JsonRedaction.SensitiveEmptyNameShows` | packages/driver/src/network-redaction.ts:196 | if the empty name is sensitive, two objects that differ only below it are shown differently |
| `JsonRedaction.BodiesDoNotShowSecrets` | packages/driver/src/network-redaction.ts:183-216 | whatever the policy, two bodies that differ only below fields with sensitive names other than the empty one give the same text, the same field list and the same references |
| `JsonRedaction.SecretsDoNotShow` | packages/driver/src/network-redaction.ts:195-209 | the same for the walk of any value: equal output and equal redacted places |
| `JsonRedaction.RedactionIsReversible` | packages/driver/src/network-redaction.ts:195-209 | putting every replaced value back at its place gives the input, so nothing outside redacted places is changed |
| `JsonRedaction.SecretsAreShown` | packages/driver/src/network-redaction.ts:196-201 | where a value was replaced the output shows its placeholder, and the value kept is the one that was there |
| `JsonRedaction.SecretsAreStored` | packages/driver/src/network-redaction.ts:275-287 | a replaced value is found in the store under its slot, with its path and placeholder, unless a later one has the same slot |
| `JsonRedaction.NetworkRedactor.Walk` | packages/driver/src/network-redaction.ts:195-209 | the walk builds the redacted value and records paths, placeholders and stored secrets in the order of the tree; which values these are is `OutermostSecretsAreReplaced` |
| `JsonRedaction.NetworkRedactor.RedactJson` | packages/driver/src/network-redaction.ts:183-216 | a body that is no JSON object or array is omitted; otherwise text, fields and references are those of the walk, and a path is listed exactly when it is that of a secret that is not part of another one |
| `JsonRedaction.NetworkRedactor.StoreSecret` | packages/driver/src/network-redaction.ts:275-287 | the secret is put in the store under its slot, and its placeholder is what is shown |
| `JsonRedaction.UniqueIsDistinct` | packages/driver/src/network-redaction.ts:330-332 | the references are listed once each |
| `JsonRedaction.UniqueKeepsOrder` | packages/driver/src/network-redaction.ts:330-332 | and in the order of their first occurrences |
| `BuildDigest.StreamIsDecodable` | packages/server/src/build-identity.ts:57-67 | equal streams of frames come from equal lists of hashed paths and contents, for all well-formed paths, not only ASCII ones |
| `BuildDigest.PlainStreamsDiffer` | packages/server/src/build-identity.ts:57-67 | files with well-formed paths free of backslashes are hashed alike only if they are the same in the same order |
| `BuildDigest.StreamsAgreeExactly` | packages/server/src/build-identity.ts:57-67 | for any paths at all two lists are hashed alike if and only if they are equal up to lone surrogates and backslashes in their paths |
| `BuildDigest.LoneSurrogatesCollide` | packages/server/src/build-identity.ts:62 | a concrete pair of different lists with the same stream: a lone surrogate is hashed like U+FFFD |
| `BuildDigest.BackslashesCollide` | packages/server/src/build-identity.ts:61 | a name with a backslash is hashed like the file of a directory |
| `BuildDigest.HashedBytes` | packages/server/src/build-identity.ts:51-69 | the bytes fed to the hash are the frames of the collected files in the order of their paths, each path with slashes for backslashes, or nothing when an input is neither a file nor a directory |
| `BuildDigest.CollectedOnce` | packages/server/src/build-identity.ts:38-49 | every regular file below an input is collected exactly once, and nothing else is |
| `BuildDigest.CollectableExactly` | packages/server/src/build-identity.ts:38-49 | collecting fails exactly when something below is neither a regular file nor a directory |
| `BuildDigest.AllFilesAreThere` | packages/server/src/build-identity.ts:51-56 | the hashed list holds the regular files of all inputs, each with its path and its contents, once for every input it is below, and no others |
| `BuildDigest.NothingHashedExactly` | packages/server/src/build-identity.ts:41-43 | nothing is hashed exactly when something below an input is neither a regular file nor a directory |
| `BuildDigest.HashedInOrder` | packages/server/src/build-identity.ts:56 | the files are hashed in the order of their paths, each as often as it was collected |
| `BuildDigest.TextBeforeMeans` | packages/server/src/build-identity.ts:47 | this order: a path comes before those it begins, and otherwise the first code unit that differs decides |
| `BuildDigest.PathFromFront` | packages/server/src/build-identity.ts:48 | a path is the input followed by a slash and a name for every step down |
| `BuildDigest.PathsAreDistinct` | packages/server/src/build-identity.ts:48 | different files below one input have different paths |
| `BuildDigest.ListingOrderIsIrrelevant` | packages/server/src/build-identity.ts:45-48 | trees that differ only in the order of directory listings give the same files in the same order |
| `BuildDigest.DigestIgnoresListingOrder` | packages/server/src/build-identity.ts:51-56 | so do the inputs of the digest |
| `BuildDigest.FrameFirst` | packages/server/src/build-identity.ts:62-64 | the first frame of a stream determines its file and where the next frame begins |
| `BuildDigest.PathFirst` | packages/server/src/build-identity.ts:62 | a path is determined by its number of UTF-16 code units and a stream that begins with its UTF-8 encoding, although the length is not counted in bytes |
| `LocatorResolution.ScoreRefCandidate` | packages/driver/src/locator-scoring.ts:167-233 | the score is the sum of the eight kinds of evidence, lies between 0 and 1, and the reasons name exactly the kinds that contributed |
| `LocatorResolution.FullEvidenceAdds` | packages/driver/src/locator-scoring.ts:167-226 | each kind of evidence adds its full weight exactly when it is full: a shared anchoring selector, the same role, name, text or label, the same tag, the same path, centres at most half a size apart |
| `LocatorResolution.FullScoreExactly` | packages/driver/src/locator-scoring.ts:167-233 | the score is 1 exactly for a candidate that agrees in everything |
| `LocatorResolution.SelectorsAdd` | packages/driver/src/locator-scoring.ts:157-185 | a shared selector adds 0.28, or 0.36 if a shared one is a stable id not made up here, an id, a test id or a name |
| `LocatorResolution.BoxSimilaritySteps` | packages/driver/src/locator-scoring.ts:133-146 | the box similarity is 1, 0.6, 0.3 or 0 exactly when the centres are at most a half, one and a half, three sizes apart, or further |
| `LocatorResolution.TextMatchMeans` | packages/driver/src/locator-scoring.ts:105-119 | a text that contains the query somewhere scores 0.78; any other by the share of the query's words that occur in it |
| `LocatorResolution.WordsMean` | packages/driver/src/locator-scoring.ts:112 | the words are the longest stretches without spaces, together all of the text but its spaces, in order |
| `LocatorResolution.IncludesMeans` | packages/driver/src/locator-scoring.ts:111 | a text includes another exactly when that stands somewhere in it |
| `LocatorResolution.ScoreInRange` | packages/driver/src/locator-scoring.ts:228-232 | the score never exceeds 1, so the cap does not act |
| `LocatorResolution.TextMatchScore` | packages/driver/src/locator-scoring.ts:105-119 | the loop over the query's words computes the text score |
| `LocatorResolution.TextMatchRanks` | packages/driver/src/locator-scoring.ts:105-119 | text scores lie in [0, 1], are 1 only for equal texts, and exceed 0.62 only if the text contains the query |
| `LocatorResolution.NumberListSimilarity` | packages/driver/src/locator-scoring.ts:121-131 | the loop computes the share of the common prefix |
| `LocatorResolution.ListSimilarityRanks` | packages/driver/src/locator-scoring.ts:121-131 | the similarity lies in [0, 1] and is 1 only for equal paths |
| `LocatorResolution.ResolvesExactly` | packages/driver/src/locator-scoring.ts:236-271 | for every delta resolution succeeds with a candidate if and only if it occurs once, reaches the minimum and beats every other by more than the delta, or, the delta being negative, it is the first listed of the best and reaches the minimum |
| `LocatorResolution.FailsExactly` | packages/driver/src/locator-scoring.ts:236-271 | nothing is found exactly when there are no candidates, confidence is low exactly when all of them stay below the minimum, and a failure names the best three, or all if there are fewer |
| `LocatorResolution.DefaultsMean` | packages/driver/src/locator-scoring.ts:98-99 | without options a candidate is the match exactly when it occurs once, scores at least 0.62 and is more than 0.04 ahead of every other |
| `LocatorResolution.WinnerIgnoresOrderExactly` | packages/driver/src/locator-scoring.ts:246-271 | the winner is the same for every order of the candidates if and only if the delta is not negative or the candidates that reach the best score, if it reaches the minimum, are all the same |
| `LocatorResolution.KindIgnoresOrder` | packages/driver/src/locator-scoring.ts:236-271 | success or the kind of failure never depends on the order, for any delta |
| `LocatorResolution.NegativeDeltaDependsOnOrder` | packages/driver/src/locator-scoring.ts:261-263 | for every negative delta the first of two equally good candidates wins, in either order |
| `LocatorResolution.SortedFirst` | packages/driver/src/locator-scoring.ts:246-248 | the stable sort by falling score begins with the first listed of the best |
| `LocatorResolution.WeakEvidenceIsBounded` | packages/driver/src/locator-scoring.ts:167-226 | selectors, tag, position and box alone score at most 0.48 |
| `LocatorResolution.WeakEvidenceIsNotEnough` | packages/driver/src/locator-scoring.ts:236-257 | so with the default minimum, or any above 0.48, they are never acted on, whatever the delta |

## Left out

- Chrome, the DOM, sockets, files and processes: they are events, outcomes or input data of the models.
- NetworkLifecycle and Screencast: the lifecycle and recording objects are kept by number in the state instead of by reference, so aliasing between calls is not modelled; statistics, timestamps and the last error text are left out.
- NetworkLifecycle: a start called between the settling of a stop and the resumption of the calls that await it, and option checks of a waiting start beyond valid or invalid.
- NetworkStore: status and timing fields of a request; what the redactor returns for a body, or that it throws, is a parameter. It may also throw on a URL or on headers, before the byte count is touched.
- NetworkStore.NetworkStore.UpsertRequest: does not model the URL, the headers, the method and the lists of redacted fields and secret references that are set beside the body.
- The listing of captured requests: it filters by a search text, returns the newest first and cuts at a limit, where a limit of zero returns everything.
- ShellCommand: expansions, operators and comments are outside the lexer, which rejects them; strings are free of NUL.
- Screencast: consumers that call back into the engine from within a callback, and CDP calls that are re-entered synchronously.
- FrameSize: white space beyond blank, tab and line ends.
- Omissions.CountOmissions: counts in a record that inherits nothing, where the source counts in a plain object, which miscounts keys such as "constructor" and lists numbers first; `SnapshotReport.KeysArePlain` shows that no such key is ever counted.
- BudgetSelection and SnapshotReport: visibility, roles, labels and the computation of relevance scores; the order of key names is a parameter.
- SchemaValidation: numbers are real, so NaN and infinities are outside; members of an object are in enumeration order; issue texts are structured values. The request checks before the validator are left out.
- BridgeAutostart: the map of starts in flight within one process, stale locks left by a crash, probes that fail although the endpoint is healthy, and the format of URLs and of the command line.
- BridgeAutostart: a release that fails leaves the lock file behind, as in the source; "released" means attempted.
- TrustedInput: resolution of the reference before the action, failure texts and the session's own bookkeeping.
- RateLimiter: fractional limits and clocks that run backwards.
- JsonRedaction: headers, cookies, URLs and forms, the test for credential-like strings, and how slots are computed; equal slots overwrite one another in the store. A JSON parser and printer are parameters.
- BuildDigest: the hash function, missing inputs beyond failing, and normalisation of paths with dots.
- LocatorResolution: trimming, lower case and white space beyond blank, tab and line ends; rounding; the ranking of query results.
