# Subshell: a verified model of its hardest code

This project models, in Dafny, the parts of Subshell whose correctness depends on interleavings, loops or
byte offsets, and proves what they promise for all inputs, all runs or all reachable states.

- **The macOS display helper** (`InputLedger`, `InputRuns`, `InputLaws`, `InputObject`, `KeyTable`,
  `RequestRate`, `CaptureLife`, `CaptureStarts`, `CaptureObject`, `HelperProtocol`, `Runtime*`,
  `LineFraming`, `SendBuffer`, `Duplex`, `ConnectionObject`, `ListenerProtocol`, `ListenerObject`).
  Everything between two awaits is one atomic step; peers, the operating system, timers, permissions and the
  person at the Mac choose freely in between. What reaches the outside (input events, messages, bytes, stream
  starts and stops) is kept in a log, and the theorems relate that log to the state over whole runs: what never
  happens, and exactly what each event does and when it is refused. Classes with the helper's fields and
  methods are proved against the step functions.
- **The change planner** (`WorkspaceGraph`, `TestPlan`, `PlanTheorems`, `PlanFields`, `PlanMethods`): ownership
  by the longest directory, the in-place growing set against the least closed set, independence of order, the
  exact condition for monotonicity, every field of the plan from the changed files, and the partition into
  lanes. Its regular expressions are arbitrary predicates on paths, so every result holds whatever they match.
- **Staging and merging for releases** (`PanelStaging`, `PathOrder`, `BundleBuild`, `BundlePasses`,
  `StagingObject`, `ObjectNames`, `ReleaseMerge`, `UpdaterMerge`): a directory mirror over a file tree with
  directories, files and links, the gate of later builds, and two conflict-refusing merges.
- **Byte formats** (`AgentWire`, `IcoContainer`): the ssh-agent identities answer, built from the strings of
  section 5 of RFC 4251, the frame reader, and the icon container, each with an independent inverse.

Where the code does not do what its text says, the model follows the code, a lemma shows it, and the exact
condition under which the promise does hold is proved:

- Two symbols that share a virtual key make the ledger hold a key that is up; the ledger is exact if and
  only if no two typable symbols share a code, and the shipped table does share codes
  (`InputRuns.ExactIffUnshared`, `KeyTable.MacLayoutSharesCodes`).
- A capture whose check fails right after the native start is not stopped yet while it waits for the stream to
  stop, so when a later check passes again a frame goes out (`CaptureLife.FrameAfterDenial`). After a failed
  check no frame goes out exactly in all other cases (`CaptureLife.SilentAfterDenial`).
- The planner is monotone if and only if every package it names itself is a workspace, or no file selects
  everything (`PlanTheorems.MonotoneExact`). Its comment says a fixture change affects all browser
  scenarios; a changed helper under `e2e/tests` alone runs none (`PlanTheorems.FixtureExact`,
  `PlanTheorems.TestHelperRunsNothing`).
- `sync_panel` returns true although nothing changed when the tree stays as it was while something stale
  refuses to be removed, or a name is listed twice with different bytes; otherwise its report is truthful
  (`PanelStaging.TruthfulExact`, with `RefusedRemovalReported` and `TwoContentsReported` as inputs). Neither
  caller can list a name twice, since the pages come from a directory (`BundleBuild.PagesExact`). It does not
  mirror through links (`PanelStaging.SyncExact`, `LinkedPageNotMirrored`).
- A built index that is a link is seen by the check for the page and skipped by the copy. Every later pass then
  compiles again, although it leaves the tree exactly as it was (`BundlePasses.LinkedIndexNeverSettles`,
  `LinkedIndexExample`).
- Both merges look names up in a plain object, so a name that every object inherits, such as
  `constructor`, is refused as a conflict although nobody else claims it, and never counts as missing
  (`ReleaseMerge.MergeExact`, `UpdaterMerge.MergeExact`, and `ConstructorRefused` in both).
- A run that stops between its two renames leaves the manifest of that run with an older signature. The pair
  still belongs together exactly when the latest run that came past its first rename and the latest run that
  finished staged the same bytes (`ReleaseMerge.PairStaysMatched`): repeating a release on the same shards can
  never separate it, and a later finished run always repairs it.
- An icon of size 0 or less is read back with another size (`IcoContainer.SizeBack`).

Assumptions about the outside: creating a mouse or scroll event, and a key-up event in a release, succeeds
(the event of a key message may fail to be created); stopping a stream ends a running one and is harmless on
any other; serialized JSON contains no raw newline; the system clock does not run backwards; a kernel takes
no more than it is offered; a closed file descriptor releases its lock; a directory tree has directories
above everything in it.

## Model

| member | source | states |
|---|---|---|
| InputLedger.PointerAccounts | native/display-helper/Input.swift:24-47 | a pointer message keeps the ledger accounting for every button the system believes is held |
| InputLedger.ReleaseAccounts | native/display-helper/Input.swift:106-121 | a release leaves the system holding nothing, in whatever order the held codes are walked |
| InputLedger.RetargetAccounts | native/display-helper/Input.swift:76-79 | a focus change first frees everything at the old process |
| InputLedger.KeyAccounts | native/display-helper/Input.swift:76-104 | a key message on any of its paths keeps the ledger accounting for every key the system believes is held, with at most 256 symbols |
| InputRuns.RunAccounts | native/display-helper/Input.swift:24-121 | over any run of messages the ledger accounts for everything held on the device that replays the posted events |
| InputRuns.LastIsDownReplays | native/display-helper/Input.swift:103-113 | "the last event for this key is key-down" and "the replayed device holds the key" are the same |
| InputRuns.NoStuckKeys | native/display-helper/Input.swift:76-121 | a key whose last event is key-down goes to the current target and is the code of a held symbol |
| InputRuns.ReleaseFreesEverything | native/display-helper/Input.swift:106-121 | after a release no key of any process and no button is down, although symbols may share codes |
| InputRuns.ButtonsAlternate | native/display-helper/Input.swift:34-47 | per button the posted events alternate down and up, and the last one is a press exactly when the mask holds the bit |
| InputRuns.ScrollsAreRisingEdges | native/display-helper/Input.swift:42-46 | the scroll events of each wheel bit are as many as the rising edges of that bit in the run |
| InputRuns.ExactIffUnshared | native/display-helper/Input.swift:88-90 | every held symbol's key is down in every run if and only if no two typable symbols share a code |
| InputRuns.SharedCodeLosesAKey | native/display-helper/Input.swift:88-103 | for any two typable symbols with one code there is a run that holds one of them while its key is up |
| InputRuns.PointerStaysInside | native/display-helper/Input.swift:25-33 | every mouse event a pointer message posts lies within the display's bounds |
| InputLaws.MaskRead | native/display-helper/Input.swift:34-42 | bits 1, 2 and 4 of a mask are the left, centre and right button and bits 8 to 64 the wheel directions: the mask made of any of them reads back as them |
| InputLaws.MaskWritten | native/display-helper/Input.swift:34-42 | every mask up to 127 is the mask of what is read from it |
| InputLaws.PointerPlaced | native/display-helper/Input.swift:29-33 | every mouse event of a pointer message is posted as far into the bounds, in both directions, as the pixel lies into the capture |
| InputLaws.PointerExact | native/display-helper/Input.swift:24-47 | a pointer message is refused exactly when a check fails or a number is out of range; otherwise it posts one move first, dragging left before right before centre, a press or lift for each button that changed and a scroll for each new wheel bit |
| InputLaws.ReleaseExact | native/display-helper/Input.swift:106-121 | a release posts exactly a plain key-up to the target for each held code and a lift at the cursor for each held button |
| InputLaws.TypableExact | native/display-helper/Input.swift:80-84 | the exact ranges of symbols without a key of their own that can be typed, with and without the Unicode tag |
| InputLaws.KeyThrows | native/display-helper/Input.swift:76-87 | a key message throws exactly when a check fails, nothing is focused, or a new key would be the 257th held |
| InputLaws.KeyStrikes | native/display-helper/Input.swift:88-103 | while focus stays, exactly one event is posted to the focused process, with the symbol's key, the modifiers held by then and its text, and recorded |
| InputLaws.KeyMovesFocus | native/display-helper/Input.swift:79-103 | when focus moved, everything at the old target is released first and the key is then the only one held |
| InputLaws.KeyIgnored | native/display-helper/Input.swift:80-89 | a symbol that cannot be typed, or an event that cannot be made, changes nothing but the focus |
| InputObject.DisplayInput.Pointer | native/display-helper/Input.swift:24-47 | the method's loops post exactly the step's events and leave its ledger |
| InputObject.DisplayInput.Release | native/display-helper/Input.swift:106-121 | the loops lift each held code once and each held button, and empty the ledger |
| InputObject.DisplayInput.Key | native/display-helper/Input.swift:76-104 | the method takes exactly the key step; the early return after the ledger has changed is unreachable |
| KeyTable.LettersFoldTogether | native/display-helper/Input.swift:123-130 | a letter selects the same key in both cases and with the Unicode tag |
| KeyTable.LettersAreDistinct | native/display-helper/Input.swift:123-142 | different letters select different keys, so Command-C is not Command-A |
| KeyTable.ShiftKeepsTheKey | native/display-helper/Input.swift:132-142 | every shifted character of an ANSI keyboard is on the key of its unshifted partner |
| KeyTable.BeyondAscii | native/display-helper/Input.swift:125-130 | beyond ASCII only three canonically equal characters select a key; the rest select key 0 |
| KeyTable.MacLayoutSharesCodes | native/display-helper/Input.swift:132-151 | the shipped tables give one code to several typable symbols |
| RequestRate.WindowsBound | native/display-helper/Runtime.swift:82-86 | between two processed requests there are at most 200 per opened window, and opened windows are at least a second apart |
| RequestRate.CloseTogether | native/display-helper/Runtime.swift:82-86 | two processed requests within a span have fewer than 200 (ceil(span) + 1) between them |
| RequestRate.RateBound | native/display-helper/Runtime.swift:82-86 | any interval contains at most 200 (ceil(span) + 1) processed requests |
| RequestRate.WindowExact | native/display-helper/Runtime.swift:82-85 | the rate kept for a connection is when its current window opened, by an independent greedy partition of the request times, and how many requests it has seen |
| RequestRate.RefusedExact | native/display-helper/Runtime.swift:82-86 | a request is refused if and only if 200 of its window, opened less than a second ago, were processed |
| RequestRate.QuietNeverRefused | native/display-helper/Runtime.swift:82-86 | a connection with fewer than 200 requests in the last second is never refused |
| RequestRate.TwoHundredServed | native/display-helper/Runtime.swift:82-86 | requests at one moment are all processed if and only if they are at most 200 |
| CaptureLife.RunSound | native/display-helper/Capture.swift:27-126 | every interleaving of start, stop, timer, samples and encoder keeps the capture's invariant, with at most one frame encoding |
| CaptureLife.NoStreamOutlivesItsOwner | native/display-helper/Capture.swift:27-61 | once the start and the stop tasks are done, a stopped capture has no running stream and no timer, wherever the stop fell |
| CaptureLife.RunningNeedsAnOwner | native/display-helper/Capture.swift:105-126 | a stream still running then belongs to a capture nobody stopped, with its timer alive |
| CaptureLife.SilentAfterStop | native/display-helper/Capture.swift:63-96 | after a stop no frame and no loss is ever emitted, also not by an encode already in flight |
| CaptureLife.SilentAfterDenial | native/display-helper/Capture.swift:27-126 | after a failed check, of the three of the start or the three while capturing, no frame can be emitted by that event or in any lawful continuation, if and only if it is not the check after the native start of a capture nobody has stopped |
| CaptureLife.FrameAfterDenial | native/display-helper/Capture.swift:119-126 | a concrete lawful run that emits a frame after that check has failed |
| CaptureLife.ThrownStartHasNoStream | native/display-helper/Capture.swift:27-61 | a start that threw, at whichever check or await, has no stream running or about to run |
| CaptureLife.FramesAreChecked | native/display-helper/Capture.swift:80-94 | every frame in a run comes back from the encoder of a capture still live, with its permission checked at that moment |
| CaptureLife.LostAtMostOnce | native/display-helper/Capture.swift:45-53 | in any run the owner hears of a loss at most once |
| CaptureLife.FramesConserved | native/display-helper/Capture.swift:76-94 | every accepted sample has come back or is in flight, and frames emitted are no more than samples that came back |
| CaptureStarts.UnspoiledStarts | native/display-helper/Capture.swift:27-61 | a start whose checks all pass and which nothing stops ends started, unstopped, with a running stream and its timer, whatever else happens in between |
| CaptureStarts.FailedStartWasSpoiled | native/display-helper/Capture.swift:27-61 | a start throws or stops its stream again only if the run holds a failed check, an unlisted display, a failed attach, a native failure or error, or something that stopped the capture |
| CaptureStarts.ThrewExact | native/display-helper/Capture.swift:27-61 | a start has thrown if and only if one of its own steps failed or the stop it awaited returned |
| CaptureStarts.FramesExact | native/display-helper/Capture.swift:80-94 | a frame is emitted if and only if a permitted encode returns to a capture still live |
| CaptureStarts.SampleExact | native/display-helper/Capture.swift:63-80 | a sample is encoded if and only if it is permitted, complete and of the right size, the capture is live and nothing is encoding |
| CaptureStarts.StoppedExact | native/display-helper/Capture.swift:45-112 | a capture is stopped if and only if its owner stopped it or it reported a loss |
| CaptureStarts.StoppedOnce | native/display-helper/Capture.swift:105-112 | a stream that was there when its capture was stopped gets exactly one detached stop |
| CaptureStarts.OneStopSettles | native/display-helper/Capture.swift:105-112 | once the start has returned, carrying that stop out makes a stopped capture let go of everything |
| CaptureObject.DisplayCapture.ContentArrives | native/display-helper/Capture.swift:31-56 | the segment after the list of displays keeps the object on a lawful run and sound, also when attaching the output throws after the timer was set |
| CaptureObject.DisplayCapture.StreamArrives | native/display-helper/Capture.swift:119-126 | after the native start, a revoked capture goes on to stop the stream it started |
| CaptureObject.DisplayCapture.StopArrives | native/display-helper/Capture.swift:122-125 | the stop of a revoked start ends the stream before the start throws; a stopped capture with nothing outstanding has let go |
| CaptureObject.DisplayCapture.StopTaskRuns | native/display-helper/Capture.swift:108-112 | a detached stop ends the stream; a stopped capture with nothing outstanding has no running stream and no timer |
| CaptureObject.DisplayCapture.SampleArrives | native/display-helper/Capture.swift:63-79 | a sample is dropped, encoded or ends the capture, never beside another encode, and a stopped capture stays silent |
| CaptureObject.DisplayCapture.EncodeReturns | native/display-helper/Capture.swift:80-94 | a returning encode emits a frame only on a live, permitted capture, and leaves the object sound |
| CaptureObject.DisplayCapture.StopCapture | native/display-helper/Capture.swift:105-112 | a stop hands the held stream to one stop task and drops it, from any sound state |
| HelperProtocol.IntegerExact | native/display-helper/Runtime.swift:163-168 | an integer field is accepted exactly when it is a number that is a natural up to the maximum |
| HelperProtocol.ParseInRange | native/display-helper/Runtime.swift:94-120 | whatever a request holds, the handler only ever sees sizes, positions, masks and symbols in range |
| HelperProtocol.OperationExact | native/display-helper/Runtime.swift:79-128 | the operation is the one the request names by its text; a request without a text there is malformed |
| HelperProtocol.StartExact | native/display-helper/Runtime.swift:94-100 | a capture request is valid if and only if it names a display and whole sizes from 320 to 4096 in the fields for them |
| HelperProtocol.PointerExact | native/display-helper/Runtime.swift:110-114 | a pointer request is valid if and only if its three fields hold whole numbers in their ranges, each in its own place |
| HelperProtocol.KeyExact | native/display-helper/Runtime.swift:116-120 | a key request is valid if and only if it holds a symbol of 32 bits and a boolean |
| RuntimeTheorems.StepKeeps | native/display-helper/Runtime.swift:30-160 | every event keeps shares, limits, start tasks, held input and rate windows consistent |
| RuntimeTheorems.StepConsented | native/display-helper/Runtime.swift:35-45 | every event keeps: consent off means nothing captured or pending |
| RuntimeTheorems.OnlyTheUserConsents | native/display-helper/Runtime.swift:35-45 | only enabling and disabling change the stored consent; no request, timer or callback does |
| RuntimeTheorems.AllClosed | native/display-helper/Runtime.swift:41-45 | closing the listed connections one by one frees every capture, input, reservation and pending start |
| RuntimeTheorems.RunKeeps | native/display-helper/Runtime.swift:30-160 | the invariant holds along every lawful run |
| RuntimeGuarantees.LimitsHold | native/display-helper/Runtime.swift:47-109 | always at most 16 connections, 4 reservations and 16,777,216 reserved pixels; captures are the inputs, reservations are captures and pending starts, all of open connections |
| RuntimeGuarantees.ClosedHoldsNothing | native/display-helper/Runtime.swift:62-72 | however a connection was closed, it holds no share, its capture is stopped and its input left nothing pressed |
| RuntimeGuarantees.PastDeadlineHasStarted | native/display-helper/Runtime.swift:54-59 | an open connection past its deadline has a capture whose start completed |
| RuntimeGuarantees.OrphansSettle | native/display-helper/Runtime.swift:136-160 | the capture of a closed connection has no running stream and no timer once its tasks are done |
| RuntimeGuarantees.NoKeyIsStuck | native/display-helper/Input.swift:76-121 | over all connections together, a key last posted down is held by an open connection's input, for its target |
| RuntimeGuarantees.WithoutConsentEverythingIsOff | native/display-helper/Runtime.swift:41-45 | consent off: no captures, inputs, reservations or pending starts, and no key or button down anywhere |
| RuntimeGuarantees.GoneForGood | native/display-helper/Runtime.swift:62-72 | after a connection is closed no capture is created, message sent or event posted for it in any continuation |
| RuntimeGuarantees.DisableEndsSuspendedStarts | native/display-helper/Runtime.swift:136-160 | a start suspended before a disable creates nothing on resuming, even if consent is given again |
| RuntimeGuarantees.SilentWithoutConsent | native/display-helper/Runtime.swift:141-155 | from disabling until the user enables again no frame and no start confirmation is sent on any connection |
| RuntimeGuarantees.RequestsAreBounded | native/display-helper/Runtime.swift:82-86 | in every reachable state each connection's processed requests obey the interval bound |
| RuntimeSizes.AreasBounded | native/display-helper/Runtime.swift:94-109 | in every reachable state each reservation is width times height of its capture or of the start being verified, at most four of them and together at most 16,777,216 pixels |
| RuntimeSizes.SizeWasAsked | native/display-helper/Runtime.swift:94-150 | over any run, the size of a capture's input is one its own connection asked for |
| RuntimeResponses.IncomingEnds | native/display-helper/Runtime.swift:74-134 | a request ends its connection if and only if it is rejected: by consent, rate, form, limits, permissions or an answer that cannot be sent whole |
| RuntimeResponses.EndsExact | native/display-helper/Runtime.swift:30-160 | the exact list of events that end an open connection; no event of another connection does |
| RuntimeResponses.OpenUntilEnded | native/display-helper/Runtime.swift:30-160 | over any run an open connection is still open if and only if none of those events happened to it |
| RuntimeEffects.AnsweredExact | native/display-helper/Runtime.swift:88-127 | a request that is not rejected, other than a start, is counted, answered with its one message if it has one, and carried out on its own input; nobody's share changes |
| RuntimeEffects.StartAccepted | native/display-helper/Runtime.swift:94-109 | a start that is valid, permitted and within the limits is reserved at its area and pending, and its connection stays open |
| RuntimeEffects.RejectionTold | native/display-helper/Runtime.swift:128-133 | a rejected start, pointer, key or unknown request is told the error before its connection closes |
| RuntimeEffects.AcceptExact | native/display-helper/Runtime.swift:47-60 | a connection is taken if and only if there are fewer than sixteen, and then has its deadline ahead |
| RuntimeEffects.ConsentExact | native/display-helper/Runtime.swift:35-45 | consent is stored exactly by enabling with the listener up and taken back exactly by disabling |
| RuntimeEffects.VerifiedCreates | native/display-helper/Runtime.swift:136-151 | a verified start of an open connection creates its capture and an input of exactly the size asked for |
| RuntimeEffects.StartConfirmed | native/display-helper/Runtime.swift:151-155 | a start that returned is confirmed to its peer, no longer pending, and keeps its capture |
| RuntimeEffects.FrameForwarded | native/display-helper/Runtime.swift:143-145 | an encoded frame of an open connection's capture is sent on that connection at once |
| RuntimeEffects.LossTold | native/display-helper/Runtime.swift:145-148 | the loss of a capture is told on its connection, which is then closed |
| RuntimeEffects.DeadlineHarmless | native/display-helper/Runtime.swift:56-59 | a deadline does nothing at all to a connection whose start has returned |
| RuntimeEffects.StartSucceeds | native/display-helper/Runtime.swift:94-155 | from every reachable state, a start that is not rejected, whose display verifies and whose checks pass, ends with a running capture of the size asked for, confirmed on an open connection |
| RuntimeObject.HelperRuntime.AlwaysSafe | native/display-helper/Runtime.swift:30-160 | between its segments the object keeps the limits and shares, holds nothing without consent, has no stuck key and no late start, and its orphans are stopped |
| RuntimeObject.HelperRuntime.Remove | native/display-helper/Runtime.swift:62-72 | removing releases the input, stops the capture and gives back every share |
| RuntimeObject.HelperRuntime.Handle | native/display-helper/Runtime.swift:74-134 | one raw request takes exactly the machine's step, refusals and rate cap included, and leaves limits and shares kept in a reachable state |
| RuntimeObject.HelperRuntime.StartCommand | native/display-helper/Runtime.swift:94-109 | a start reserves exactly when it is valid, permitted and within both limits, and fails its connection otherwise |
| RuntimeObject.HelperRuntime.StartVerified | native/display-helper/Runtime.swift:136-151 | resuming from the display check creates capture and input only for a connection still open and consented, in a reachable state |
| RuntimeObject.HelperRuntime.StartReturned | native/display-helper/Runtime.swift:151-159 | a finished start is confirmed, stopped or reported as an error exactly as the machine says |
| RuntimeObject.HelperRuntime.CaptureEvent | native/display-helper/Runtime.swift:143-148 | a capture's timer, sample, encode or error sends its frame or closes its connection, in a reachable state |
| RuntimeObject.HelperRuntime.DeadlineFired | native/display-helper/Runtime.swift:56-59 | the deadline closes exactly a connection without a started capture |
| RuntimeObject.HelperRuntime.Disable | native/display-helper/Runtime.swift:41-45 | disabling drops consent and leaves no connection, capture, input, reservation or pending start |
| LineFraming.SplitJoin | native/display-helper/Connection.swift:33-47 | splitting what joining wrote gives back exactly the lines |
| LineFraming.DispatchFollowsStream | native/display-helper/Connection.swift:37-52 | under any chunking the dispatched requests are a prefix of the stream's lines; an open connection has dispatched them all and holds the newline-free residue |
| LineFraming.ChunkingIsIrrelevant | native/display-helper/Connection.swift:37-52 | two chunkings of one stream that leave the connection open lead to the same state |
| LineFraming.ShortLinesNeverTooLong | native/display-helper/Connection.swift:39-44 | with reads of at most 16,384 bytes, lines up to 49,152 bytes are never refused for size |
| LineFraming.RefusalLengthExact | native/display-helper/Connection.swift:39-44 | 49,152 is the exact length up to which no chunking is refused |
| LineFraming.LongLinesNeverDispatched | native/display-helper/Connection.swift:43-49 | a line of 65,536 bytes or more is never dispatched |
| LineFraming.DispatchLengthExact | native/display-helper/Connection.swift:43-49 | a length can be dispatched under some chunking if and only if it is below 65,536 |
| LineFraming.ReceivedAsJudged | native/display-helper/Connection.swift:37-52 | under any chunking not refused for size, a connection fares as the stream's lines do when handed over one by one |
| LineFraming.ClosedForCause | native/display-helper/Connection.swift:45-51 | a connection is open if and only if all its lines parse and were kept; otherwise the next line does not parse or the last request was not kept, and everything before was dispatched |
| LineFraming.GoodPeerKept | native/display-helper/Connection.swift:37-52 | a peer whose lines stay within 49,152 bytes, parse and are kept is never closed |
| SendBuffer.SendingIsFaithful | native/display-helper/Connection.swift:30-70 | under any partial, refused and failed writes the bytes sent and the bytes waiting are the accepted frames in order, at most 8 MiB wait, and a write source exists exactly when something waits |
| SendBuffer.SendingOnlyAdds | native/display-helper/Connection.swift:30-82 | accepted frames and sent bytes only grow, and a closed connection stays closed |
| SendBuffer.PeerReadsFrames | native/display-helper/Connection.swift:30-70 | a peer that splits what was sent reads the first accepted frames in order, and all of them once nothing waits |
| SendBuffer.SendExact | native/display-helper/Connection.swift:30-35 | over a kernel that does not fail, a frame is taken if and only if it serialized, is at most 6 MiB and fits the 8 MiB buffer; otherwise the connection closes with nothing sent |
| SendBuffer.FlushVerdict | native/display-helper/Connection.swift:54-68 | a flush closes the connection only at a write that failed or took nothing, and otherwise ends empty or without room |
| SendBuffer.PartIsSent | native/display-helper/Connection.swift:56-66 | when the kernel takes a part and then has no room, exactly that part is sent and the rest waits with a write source |
| SendBuffer.ReadyPeerDrains | native/display-helper/Connection.swift:54-70 | once the kernel takes bytes at every write, one readiness event empties the buffer and cancels the source |
| SendBuffer.ReadinessDrains | native/display-helper/Connection.swift:54-70 | with partial writes and refusals after them, as many readiness events as bytes wait empty the buffer: open, no source left, every accepted frame sent |
| SendBuffer.StalledPeer | native/display-helper/Connection.swift:30-35 | a peer that reads nothing is kept if and only if each frame is at most 6 MiB and all together at most 8 MiB, and then no frame is lost |
| Duplex.DuplexKeeps | native/display-helper/Connection.swift:30-82 | with replies sent from inside the reading loop, frames, readiness events and closes in any order: requests dispatched are a prefix of the stream's lines (all of them while open), both halves close together and sending stays faithful |
| Duplex.RepliesInOrder | native/display-helper/Connection.swift:45-51 | while only the handler sends, an open connection has accepted exactly the replies to its requests in their order |
| Duplex.GoodPeerServed | native/display-helper/Connection.swift:30-70 | a peer with short lines that parse and are kept, replies that fit the buffer together and a kernel that does not fail: never closed, every request dispatched and every reply accepted |
| ConnectionObject.HelperConnection.Receive | native/display-helper/Connection.swift:37-52 | one read of the socket feeds both halves as specified, replies included; end of stream and errors close, a would-block does nothing |
| ConnectionObject.HelperConnection.DispatchLines | native/display-helper/Connection.swift:45-51 | the dispatch loop stops exactly where serving does, also when a reply closes the connection |
| ConnectionObject.HelperConnection.SendValue | native/display-helper/Connection.swift:30-35 | sending takes the sender's step and does not disturb the receive buffer |
| ConnectionObject.HelperConnection.FlushOutgoing | native/display-helper/Connection.swift:54-70 | the write loop ends where the flush function does, for every kernel |
| ConnectionObject.HelperConnection.Shut | native/display-helper/Connection.swift:72-82 | closing empties both buffers, drops both sources and tells the owner, once |
| ListenerProtocol.StepKeeps | native/display-helper/Listener.swift:23-79 | every system call of any process keeps locks, descriptors and the path consistent |
| ListenerProtocol.OneListener | native/display-helper/Listener.swift:23-73 | of any number of processes at most one listens, and the path then names its socket |
| ListenerProtocol.MutualExclusion | native/display-helper/Listener.swift:31-78 | no two live processes are between locking and unlocking |
| ListenerProtocol.UnlinkedUnderLock | native/display-helper/Listener.swift:51-77 | the path is only ever unlinked by the process holding the lock at that moment |
| ListenerProtocol.PathChangesUnderLock | native/display-helper/Listener.swift:51-57 | the path changes only in the hands of the lock's holder: unlinked, or bound to a socket of its own when it named none |
| ListenerProtocol.UnlinkExact | native/display-helper/Listener.swift:51-77 | every unlink is made with the lock, recorded, and removes the path unless the system refuses |
| ListenerProtocol.PathNeverStolen | native/display-helper/Listener.swift:51-57 | no call of another process takes the path, the lock or the socket from a process that bound it |
| ListenerProtocol.IdleHoldsNothing | native/display-helper/Listener.swift:72-79 | a process outside start and stop, also after a failed start, has no descriptor and not the lock |
| ListenerProtocol.StartExact | native/display-helper/Listener.swift:23-73 | an uninterrupted start listens if and only if the lock is free and every call succeeds, where removing the old path may fail if there is none; while another process has the lock it changes nothing |
| ListenerProtocol.FinishingFrees | native/display-helper/Listener.swift:75-79 | the shared cleanup frees the socket, the path it had and the lock, and touches no other process |
| ListenerProtocol.HandOver | native/display-helper/Listener.swift:75-79 | after a stop any idle process can become the listener |
| ListenerProtocol.CrashNeverBlocks | native/display-helper/Listener.swift:29-57 | after a crash of the lock's owner in any state, the left-over path does not keep the next start from listening |
| ListenerProtocol.SecondStartRefused | native/display-helper/Listener.swift:31-34 | a start beside a listener ends outside and leaves path, lock and listener as they were |
| ListenerObject.HelperListener.Start | native/display-helper/Listener.swift:23-73 | with other processes acting between any two calls: it listens on its own path, or throws with neither descriptor nor lock; a second start does nothing; undisturbed at lock and path, it listens if and only if the lock is free and every call succeeds (removing the old path may fail if there is none) |
| ListenerObject.HelperListener.Halt | native/display-helper/Listener.swift:75-79 | stopping leaves neither descriptor nor lock, also when removing the path fails, and is harmless when not listening |
| WorkspaceGraph.OwnerExact | scripts/ci-test-plan.ts:110-131 | after the stable sort, the first match is the workspace with the longest directory around the file, if any |
| WorkspaceGraph.OwnerUnique | scripts/ci-test-plan.ts:110-131 | that workspace is unique when no two share a directory |
| WorkspaceGraph.ClosureLeast | scripts/ci-test-plan.ts:148-158 | the closure is the least set with the changed packages closed under reverse dependency, cyclic graphs included |
| WorkspaceGraph.ClosureIsReachability | scripts/ci-test-plan.ts:148-158 | a package is in it if and only if a chain of dependencies leads to it from a changed one |
| TestPlan.FullExact | scripts/ci-test-plan.ts:106-147 | the plan is full if and only if one of the files alone selects everything |
| TestPlan.OrderIrrelevant | scripts/ci-test-plan.ts:105-186 | the plan depends neither on the order of files nor of workspaces, except for a full plan's reason |
| PlanTheorems.PackagesExact | scripts/ci-test-plan.ts:108-159 | a package is selected if and only if a file selects it directly or a chain leads to it from the owner of a propagating file |
| PlanTheorems.NothingDropped | scripts/ci-test-plan.ts:131-147 | every non-documentation file of a partial plan is in a selected package or explicitly classified |
| PlanTheorems.TestsStayLocal | scripts/ci-test-plan.ts:131-137 | changes to tests and native sources alone select no dependents |
| PlanFields.DirectExact | scripts/ci-test-plan.ts:111-134 | a file selects directly its longest owner and the packages the planner names for it, unless it is documentation |
| PlanFields.ChangedExact | scripts/ci-test-plan.ts:131-137 | a file changes its owner's code if and only if it is neither documentation nor a test input nor in a native source directory |
| PlanFields.FullPlanExact | scripts/ci-test-plan.ts:51-64 | a plan is full if and only if an input is global or nothing accounts for it; it then selects everything and names the first such file |
| PlanFields.ChecksExact | scripts/ci-test-plan.ts:160-185 | smoke, cli, audit, scripts and the reason of a partial plan, from the files and the chains of dependencies alone |
| PlanFields.CratesExact | scripts/ci-test-plan.ts:92-103 | a crate is selected if and only if some non-documentation file is shared Rust input or lies under it |
| PlanFields.CrateFileChecked | scripts/ci-test-plan.ts:92-103 | a changed non-documentation file under a crate selects that crate, in partial and full plans |
| PlanFields.BrowserExact | scripts/ci-test-plan.ts:160-178 | whether browser tests run, when all of them do, and otherwise exactly which |
| PlanFields.TestedExact | scripts/ci-test-plan.ts:218 | a selected package is tested if and only if the first workspace of its name has a test script |
| PlanFields.LaneExact | scripts/ci-test-plan.ts:219-232 | which lane holds which tested package and which one the scripts |
| PlanTheorems.MonotoneExact | scripts/ci-test-plan.ts:105-186 | adding files never removes a package, crate, check or browser test, if and only if every package the planner names itself is a workspace or no file selects everything |
| PlanTheorems.AddingTheLockRemovesTheWebsite | scripts/ci-test-plan.ts:106-114 | a concrete pair of change lists for which adding a file removes a package |
| PlanTheorems.FixtureExact | scripts/ci-test-plan.ts:160-178 | a changed fixture makes the whole browser suite run if and only if the e2e package is affected or a spec changed |
| PlanTheorems.TestHelperRunsNothing | scripts/ci-test-plan.ts:160-178 | a concrete changed helper under e2e/tests for which no browser test runs |
| PlanTheorems.LanesPartition | scripts/ci-test-plan.ts:217-233 | at most three nonempty lanes; each tested package is in exactly one and the scripts in exactly one when selected |
| PlanMethods.GrowAffected | scripts/ci-test-plan.ts:148-158 | the in-place growing loop terminates with exactly the closure, for any order of workspaces |
| PlanMethods.ComputePlan | scripts/ci-test-plan.ts:105-186 | the file loop with its early exits and the growing loop compute the specified plan |
| PanelStaging.WriteEffect | native/display-helper/build_support.rs:262-271 | a write leaves the bytes, changes no other reading, and creates nothing else but directories above it |
| PanelStaging.WriteAllReports | native/display-helper/build_support.rs:245-249 | no write is reported exactly when every listed file already read as wanted, and then nothing changed |
| PanelStaging.SyncExact | native/display-helper/build_support.rs:245-258 | the directory holds exactly the listed files if and only if every stale file could be removed and no listed name was a link |
| PanelStaging.SyncLocal | native/display-helper/build_support.rs:245-258 | outside the directory nothing changes but missing directories above it |
| PanelStaging.SyncReports | native/display-helper/build_support.rs:245-258 | an unreported sync touched nothing, and happens exactly when everything was as wanted and nothing stale |
| PanelStaging.UnchangedExact | native/display-helper/build_support.rs:245-258 | the tree is as before if and only if everything wanted was there and nothing stale could be removed |
| PanelStaging.TruthfulExact | native/display-helper/build_support.rs:245-258 | "returned true" and "the tree changed" agree unless the tree stayed although a name had two contents or something stale remained |
| PanelStaging.TruthfulWhenRemovable | native/display-helper/build_support.rs:245-258 | with a list free of contradictions and nothing that refuses to be removed, the report is truthful |
| PanelStaging.RefusedRemovalReported | native/display-helper/build_support.rs:250-256 | a concrete tree with one unremovable stale file that is reported changed and is not |
| PanelStaging.TwoContentsReported | native/display-helper/build_support.rs:247-249 | a concrete tree and a list with a name twice that is reported changed and is not |
| PanelStaging.LinkedPageNotMirrored | native/display-helper/build_support.rs:245-258 | a concrete tree whose wanted page is a link: it reads as wanted, and is not mirrored |
| PanelStaging.SyncFixpoint | native/display-helper/build_support.rs:245-258 | a second sync leaves the tree exactly as the first did, whatever refused to be removed |
| PanelStaging.SecondSyncExact | native/display-helper/build_support.rs:245-258 | a second sync writes and reports nothing if and only if no name is listed with two contents and every stale file was removable |
| BundleBuild.PagesExact | native/display-helper/build_support.rs:205-239 | the staged pages have distinct names, and include an index unless the built index is a link to a file |
| BundleBuild.PagesContents | native/display-helper/build_support.rs:205-239 | pages are refused exactly for a release without a built index, are the placeholder alone in a debug build without one, and otherwise exactly the built directory's regular files with their bytes |
| BundleBuild.CopyEffect | native/display-helper/build_support.rs:274-289 | a copy has the bytes and permissions of its source, reports exactly whether either differed, and changes no other reading |
| BundleBuild.NextPassExact | native/display-helper/build_support.rs:349-426 | after a completed build the next pass does nothing if and only if the binary is executable, there is a seal and the panel has an index |
| BundlePasses.BundleHolds | native/display-helper/build_support.rs:399-426 | a completed build leaves the property list, executable, seal and pages at their places as they were made, no older seal that could be removed, and the stamp |
| BundlePasses.ExecutableBits | native/display-helper/build_support.rs:291-295 | a file is executable if and only if one of the three execute bits is set |
| BundlePasses.RebuildFixpoint | native/display-helper/build_support.rs:349-426 | building again from the same inputs, whatever the stamp says, leaves the tree exactly as it was, and compiles if and only if the bundle is not current |
| BundlePasses.BuildLocal | native/display-helper/build_support.rs:399-426 | a build changes nothing that can be read outside its bundle |
| BundlePasses.PassesSettle | native/display-helper/build_support.rs:334-426 | however many passes follow a completed one, reading the pages anew each time, all complete on the same tree |
| BundlePasses.LinkedIndexNeverSettles | native/display-helper/build_support.rs:205-362 | with an executable, a seal and no earlier index that stays: every one of the passes that follow compiles again if and only if the built index is a link to a file |
| BundlePasses.LinkedIndexExample | native/display-helper/build_support.rs:205-362 | a concrete tree with a linked index on which any number of passes completes and each compiles |
| PathOrder.OrderExact | native/display-helper/build_support.rs:153-179 | a directory comes before what is in it, and names in one directory compare character by character, a prefix first |
| PathOrder.SortedLists | native/display-helper/build_support.rs:153-179 | sorting what was found, in any order, lists each path once in ascending order |
| PathOrder.ListingUnique | native/display-helper/build_support.rs:153-179 | a set of paths has one listing only, so fingerprint and copy do not depend on the order directories are read |
| StagingObject.Disk.TreeFiles | native/display-helper/build_support.rs:156-179 | the stack walk terminates and lists each regular file below the directory once, sorted, in whatever order directories are read |
| StagingObject.Disk.SyncPanel | native/display-helper/build_support.rs:245-258 | the write loop and the removal loop leave exactly the specified tree and report |
| StagingObject.Disk.CopyChanged | native/display-helper/build_support.rs:274-289 | the method takes the copy step, permissions included |
| StagingObject.Disk.BuildBundle | native/display-helper/build_support.rs:349-426 | one pass either finds the gate closed and touches nothing, or copies, drops the old seal, syncs the panel and stamps as specified |
| ReleaseMerge.UnionExact | scripts/merge-release-manifest.ts:149-158 | combining succeeds if and only if no name has two digests or is inherited, and the result says exactly what the shards say |
| ReleaseMerge.MergeExact | scripts/merge-release-manifest.ts:124-170 | the merge succeeds if and only if there is a shard, headers agree, assets are compatible and every required binary is named |
| ReleaseMerge.RequiredNames | scripts/merge-release-manifest.ts:124-128 | the four binaries each command-line component must name, and none for the desktop ones |
| ReleaseMerge.RefusalExact | scripts/merge-release-manifest.ts:136-168 | which refusal is reported for which shards, and that exactly the missing binaries are listed |
| ReleaseMerge.MergeOrderIrrelevant | scripts/merge-release-manifest.ts:136-170 | order and repetition of shards change neither the result nor the kind of refusal |
| ReleaseMerge.GroupingIrrelevant | scripts/merge-release-manifest.ts:138-158 | merging group by group before the completeness check gives the merge of all at once |
| ReleaseMerge.GroupsCombine | scripts/merge-release-manifest.ts:138-158 | shards that merge at once merge in any nonempty groups |
| ReleaseMerge.MergeManifests | scripts/merge-release-manifest.ts:136-170 | the nested loops compute the specified merge and the same kind of refusal |
| ReleaseMerge.ConstructorRefused | scripts/merge-release-manifest.ts:149-158 | a concrete single shard that is refused as if two disagreed |
| ReleaseMerge.PairStaysMatched | scripts/merge-release-manifest.ts:207-228 | over any runs, refused, failed or killed, staging anything: the manifest is of the latest run past its first rename, the signature of the latest finished one; they match if and only if those staged the same bytes, and always once half-finished runs are repaired |
| ReleaseMerge.RepeatsNeverMismatch | scripts/merge-release-manifest.ts:184-228 | runs that stage the published bytes again never change the pair, however they end |
| ReleaseMerge.MismatchOfDistinctRuns | scripts/merge-release-manifest.ts:207-228 | when every run stages bytes of its own, the pair matches if and only if no half-finished run is left unrepaired |
| UpdaterMerge.MergeExact | scripts/updater-manifest.ts:174-198 | the merge succeeds if and only if versions agree, each platform is claimed once and not inherited, some platform is there and every expected one is; the platforms are the exact union |
| UpdaterMerge.ConstructorRefused | scripts/updater-manifest.ts:180-189 | a concrete single shard that is refused as if two claimed its platform |
| UpdaterMerge.ConstructorNeverMissing | scripts/updater-manifest.ts:191-196 | a merge that lacks an expected platform of such a name and is accepted |
| UpdaterMerge.MergePermute | scripts/updater-manifest.ts:174-198 | reordering shards keeps success, version and platforms; notes and date are the first shard's |
| UpdaterMerge.KeysApart | scripts/updater-manifest.ts:51-56 | different targets have different platform keys, none of them inherited |
| UpdaterMerge.KeySpelling | scripts/updater-manifest.ts:51-56 | only the three desktop targets have a key; it keeps the system's name and spells the architecture as Tauri does |
| UpdaterMerge.ShardExact | scripts/updater-manifest.ts:121-142 | a shard is refused exactly for an empty signature or an unknown target, and otherwise holds the build's own entry |
| UpdaterMerge.BuiltMergeContents | scripts/updater-manifest.ts:121-198 | a merge of built shards carries each build's own signature and address under its target's key |
| UpdaterMerge.BuiltMergeExact | scripts/updater-manifest.ts:121-198 | shards as built merge if and only if there is one, they are of one version, no target was built twice and every wanted target was built |
| UpdaterMerge.MergeManifests | scripts/updater-manifest.ts:174-198 | the loops compute the specified merge, with the refusal of the first offending shard |
| AgentWire.ParseEncode | e2e/stub/relay-spec.ts:156-173 | parsing an encoded identities answer gives back its entries |
| AgentWire.EncodeParse | e2e/stub/relay-spec.ts:156-173 | whatever the parser accepts re-encodes to itself, although subarrays are cut off silently |
| AgentWire.ParseExact | e2e/stub/relay-spec.ts:156-173 | the parser accepts exactly the encodings |
| AgentWire.ReplyIsFirstFrame | e2e/stub/relay-spec.ts:130-142 | for every chunking the reply is the stream's first frame, as soon as it is complete |
| AgentWire.AnswerSurvivesChunking | e2e/stub/relay-spec.ts:123-173 | a framed answer is read back entry for entry under every chunking, whatever follows |
| AgentWire.StringsPrefixFree | e2e/stub/relay-spec.ts:111-120 | two encoded strings with what follows are equal only if both parts are |
| AgentWire.SignRequestInjective | e2e/stub/relay-spec.ts:219-223 | two sign requests are the same bytes only if they ask for the same |
| AgentWire.SignRequestRead | e2e/stub/relay-spec.ts:219-223 | a sign request reads back, by an independent reader, as type 13, the key, the data, flags 0 and at most the algorithm's name |
| AgentWire.WordsOrdered | e2e/stub/relay-spec.ts:111-115 | words are big-endian: the greater of two first differs in a greater byte |
| AgentWire.ParseIdentities | e2e/stub/relay-spec.ts:156-173 | the loop over a running offset computes the specified parse, errors included |
| AgentWire.FrameReader.OnData | e2e/stub/relay-spec.ts:132-142 | one chunk takes the reader's step; after the reply nothing changes |
| IcoContainer.ReadBack | brand/ico.ts:11-33 | reading a written file returns the number of images and each image from where it was put, with its planes and bits |
| IcoContainer.Contiguous | brand/ico.ts:17-30 | offsets start at 6 + 16 n, follow one another without gap or overlap and end at the end of the file |
| IcoContainer.SizeBack | brand/ico.ts:21-22 | the size read back is the smaller of the size and 256, exactly for sizes of at least 1 |
| IcoContainer.BuildIco | brand/ico.ts:11-33 | the loop over the directory buffer with its running offset writes the specified file, or refuses when a field overflows |

## Left out

- Operating-system calls themselves (CoreGraphics, ScreenCaptureKit, Accessibility, sockets, file locks, JSON, JPEG): their results are chosen freely under the assumptions above.
- BetterDisplay and display-identity checks: one free verdict for each await; `restoreStrandedCursor` and the menu's `onStateChange` have no effect on the modelled state.
- The settings panel, menu, themes and the WebKit bridge: user interface.
- RuntimeObject.HelperRuntime: holds captures, inputs and connections as values in maps; aliasing between those objects is not modelled, and a message counts as delivered, refused or broken without the bytes of `ConnectionObject`.
- InputLaws.PointerExact: the amounts of a scroll event are not modelled, only its direction bit.
- InputRuns.PointerStaysInside: coordinates are real numbers, so floating-point rounding at the edge of the display is not modelled.
- HelperProtocol.IntegerExact: numbers are real numbers; infinities and loss of precision of doubles are not modelled.
- RequestRate.RateBound: times are real numbers.
- KeyTable.LettersFoldTogether: Unicode lower-casing and canonical equivalence are reduced to what reaches the ASCII table.
- ListenerProtocol.OneListener: creating the directory and setting its permissions are not steps, nobody outside the helper touches the lock file or the path, and the accept handler's peer check is left out.
- TestPlan.OrderIrrelevant: packages, crates and spec lists are sets; the final alphabetical sort of each list is not modelled.
- TestPlan.FullExact: what the regular expressions match, reading the workspaces and asking git for changed files are left out.
- PlanTheorems.LanesPartition: a lane's packages are a set.
- StagingObject.Disk.TreeFiles: directories that cannot be read are not modelled.
- PanelStaging.SyncExact: links to directories and two links to one target are not modelled; after a failed write nothing is claimed, because the build ends.
- BundleBuild.NextPassExact, BundlePasses: the fingerprint is an arbitrary value given to the build, compiling and signing are its inputs, and creating the bundle's binary directory is part of writing the binary.
- Injectivity of `fingerprint`: false for any 64-bit hash, so nothing is claimed from equal fingerprints.
- ReleaseMerge.MergeManifests: refusals carry their kind and the missing names, not the message text; scanning for shards and parsing them are left out.
- UpdaterMerge.BuiltMergeExact: the signature is taken as already trimmed, and the publication date is always given.
- AgentWire.ParseExact: comments are bytes; decoding them as UTF-8 loses malformed sequences. Time-outs and socket errors are left out.
- Signature verification, network fetches, docker, Playwright, websites and build configuration: third-party code or input and output.
- `pending_install.rs`, `cli_update.rs`, `browser.rs` and `dep-audit.ts`: decision tables that would only add easy members.
