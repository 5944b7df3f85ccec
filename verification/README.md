# Verification of pbox's hard parts

Dafny models of the parts of pbox whose correctness is hard to see from one function, with proofs over every input, every run or every interleaving.

- `Forward.dfy`, `ReverseForward.dfy`, `Channel.dfy`: the two TCP forwarding protocols as transition systems of client, agent and channels. A step is one suspension point of one task; its label says what the environment decided. `ForwardProgress.dfy` and `ReverseProgress.dfy` show that success stays within reach.
- `SessionFanout.dfy`, `SessionRegistry.dfy`, `InputPath.dfy`: terminal sessions: redraw and live output meeting in each viewer's channel, the registry of sessions with their owners and execution slots, and input from the client's pump to the guest's PTY. `FanoutProgress.dfy` shows that output can always be delivered and sessions closed.
- `TerminalModes.dfy`, `KeyEncoding.dfy`: keyboard modes (kitty keyboard protocol, progressive enhancement) tracked and replayed as control sequences (section 5.4 of ECMA-48), and text and keys encoded for a terminal, each with its inverse; `KeyNames.dfy` says what every key name stands for, without the encoder's tables.
- `Scrollback.dfy`, `ProcessTree.dfy`, `OutputCoalescing.dfy`: three loops with exact statements about their results.
- `FileTransfer.dfy`, `Uploads.dfy`: chunked uploads and downloads, and putting uploads in place while others are doing the same.
- `ImageReference.dfy`, `ImageText.dfy`: OCI image references, their printer, the repository scanner against the published grammar, and the parser against every way of writing a reference.
- `Provenance.dfy`, `RecipeSnapshot.dfy`, `DirectoryWalk.dfy`: recipe provenance under optimistic concurrency, the life of the recovery snapshot, and the directory walk behind `pbox scp`.
- `Common.dfy`, `Strings.dfy`, `Decimal.dfy`: shared types and facts.

`dafny verify dfyconfig.toml` checks everything.

Protocols are state machines: a `State`, a `Step`, a partial function `Next`, and `Runs` for any number of steps; the theorems speak about every state that `Runs` reaches. Objects whose methods update fields are classes, loops are methods with invariants, and code made of expressions is functions. I/O is an input of the model: the labels of steps, sequences of arrivals and turns, or calls whose success is not determined.

Assumed of code that is not modelled: Tokio's mpsc channels are FIFO and refuse to hold more than their capacity; a `Notify` keeps one permit; vt100 shows at scrollback offset k the first rows of the last k scrolled lines followed by the screen; PVE refuses a configuration update with a stale digest, and digests do not collide; `parse_metadata(preserve_metadata(d, m))` is m. A call to PVE or the file system that reports success had its effect, and one that reports an error may have had it, unless a contract says otherwise.

Where documentation and code disagree the model follows the code: the repository's README.md says that attaching moves a session from its previous connection, while the code keeps every viewer subscribed.

Properties that turned out to need a condition carry it and a lemma that shows why: provenance without a digest (`Provenance.MissingDigestLosesUpdate`), destinations that name a temporary file (`ConcurrentUploads.AtomicExactlyWhenGuarded`, with a run in `ConcurrentUploads.TemporaryNameAsDestination`), text with '+' (`KeyEncoding.UnpastedTextAccepted`), and the recovery snapshot an early recording failure leaves unnamed (the last clause of `Fate` in `RecipeSnapshot.dfy`, `RecipeSnapshot.EarlyFailureIsUnnamed`).

## Model

| member | source | states |
|---|---|---|
| `Forward.WrittenIsPrefixOfRead` | crates/pbox-agent-client/src/lib.rs:581-651 | in every interleaving of client, agent and failures the bytes written to each socket are a prefix of the bytes read from the other one |
| `Forward.NoDataAfterClose` | crates/pbox-agent/src/main.rs:586-717 | neither channel ever carries data after a half-close or a full close |
| `Forward.ClientOkMeansComplete` | crates/pbox-agent-client/src/lib.rs:581-651 | `forward_tcp` returns Ok only through its final return: both half-closes happened, everything the target produced up to its end was written locally in order, and the request channel carried all local data, the half-close and, when its receiver was still there, the full close |
| `Forward.NoCleanFullClose` | crates/pbox-agent-client/src/lib.rs:630-642 | a client that waits for events before the remote half-close never meets a clean full close, so its early Ok return is unreachable against this agent |
| `Forward.HalfCloseMeansDelivered` | crates/pbox-agent/src/main.rs:586-717 | whichever side has taken the other one's half-close has written everything the other side produced up to its end, even when it fails afterwards |
| `Forward.AgentCleanEndMeansComplete` | crates/pbox-agent/src/main.rs:586-717 | the agent's clean end implies that everything the client read up to its end was written to the target |
| `Forward.StepKeepsInv` | crates/pbox-agent/src/main.rs:586-717 | every step of either task keeps the invariant that ties flags, channel histories and socket bytes together |
| `Channel.HalfCloseCarriesAll` | crates/pbox-agent-client/src/lib.rs:623-642 | a receiver whose last event is the half-close has received every data event that was sent, whatever follows the half-close |
| `ForwardProgress.SuccessStaysPossible` | crates/pbox-agent-client/src/lib.rs:581-651 | in every run, as long as neither task has ended or is breaking off, the client can still return Ok with everything that was read on either side written to the other one |
| `ForwardProgress.AnythingCanBeForwarded` | crates/pbox-agent/src/main.rs:586-717 | for any data of the two sockets there is a run in which the client returns Ok, the agent ends cleanly and each socket was written exactly what the other one produced |
| `ForwardProgress.HalfCloseKeepsRunning` | crates/pbox-agent-client/src/lib.rs:630-642 | a client that takes the agent's half-close shuts its socket's write side down and goes on |
| `ForwardProgress.HalfCloseKeepsAgentRunning` | crates/pbox-agent/src/main.rs:586-717 | and so does an agent that takes the client's |
| `ForwardProgress.CloseIsAnswered` | crates/pbox-agent/src/main.rs:586-717 | an agent that takes a full close answers with a full close of the same code and ends with it |
| `ForwardProgress.CodeFailsClient` | crates/pbox-agent-client/src/lib.rs:630-642 | a client that takes a close with a code other than zero fails |
| `ForwardProgress.FullCloseEndsClient` | crates/pbox-agent-client/src/lib.rs:630-642 | a full close without a code would end the client without an error |
| `ReverseForward.IdsAreFreshAndAnnouncedFirst` | crates/pbox-agent/src/reverse.rs:41-92 | no connection id is used twice and an id's Connected precedes every other event of that id |
| `ReverseForward.NoCrossTalk` | crates/pbox-agent/src/reverse.rs:57-141 | for every connection among any number on one stream: what is written to either socket is a prefix of what was read from its partner, and a bridge whose write side is closed, so also one that ends with both flags set for whatever reason, wrote everything its partner read up to the end |
| `ReverseForward.InboxIsPartnersStream` | crates/pbox-agent-client/src/reverse.rs:64-100 | what a connection's bridge takes is a prefix of what its partner put on the stream: once an event is dropped all later ones are |
| `ReverseForward.EndWritesPrefix` | crates/pbox-agent-client/src/reverse.rs:102-168 | the same for one connection and either side, given the invariant of both: a prefix always, everything once the write side is closed |
| `ReverseForward.StepKeepsInv` | crates/pbox-agent/src/reverse.rs:57-92 | every step of the accept and demultiplex loops and of every bridge keeps the invariant |
| `Bridge.MoveKeepsInv` | crates/pbox-agent/src/reverse.rs:94-141 | one move of a bridge keeps its flags, its socket bytes and its two event histories consistent |
| `ReverseProgress.SuccessStaysPossible` | crates/pbox-agent/src/reverse.rs:57-141 | in every run, as long as both loops run and route a connection whose bridges are in their loops, it can still end on both sides with everything that was read on either side written to the other one, whatever other connections have on the stream |
| `ReverseProgress.AnythingCanBeForwarded` | crates/pbox-agent-client/src/reverse.rs:64-168 | in every run, while both loops run, one more connection can be accepted and joined and carry any data both ways to a clean end |
| `ReverseProgress.RefusalIsReported` | crates/pbox-agent-client/src/reverse.rs:109-128 | a target that cannot be reached is reported with a full close of code 1 |
| `ReverseProgress.CloseEndsBridge` | crates/pbox-agent/src/reverse.rs:120-140 | a bridge that takes a close that is no clean half-close gives up and sends a full close of its own |
| `ReverseProgress.FaultsAreReported` | crates/pbox-agent/src/reverse.rs:105-140 | a socket that fails while reading, writing or shutting down ends the bridge with a full close |
| `ReverseProgress.FullCloseForgets` | crates/pbox-agent-client/src/reverse.rs:80-87 | the client's loop forgets a connection at its full close |
| `ReverseProgress.ForgottenBridgeEnds` | crates/pbox-agent-client/src/reverse.rs:148-168 | a bridge whose loop has forgotten it or stopped ends once its inbox has run dry |
| `ReverseProgress.LoopsForgetEnded` | crates/pbox-agent/src/reverse.rs:88-88 | after every turn of a loop only connections whose bridge has not ended are routed |
| `SessionFanout.RedrawMeetsLiveOutput` | crates/pbox-agent/src/sessions.rs:257-291 | a viewer's channel holds the redraw of the screen after exactly the events processed when it subscribed (none for the creator, who subscribed before the first), then the following events contiguously, each once; the channel never holds more than 64 items |
| `SessionFanout.NoEventSkipped` | crates/pbox-agent/src/sessions.rs:391-428 | while the session lives, a connected viewer has been sent every event processed since it subscribed, except the one being sent to it |
| `SessionFanout.TakeoverUnreachable` | crates/pbox-agent/src/sessions.rs:419-425 | the branch that gives up a send because of a later generation is never taken, since the generation changes only after the owner stopped sending |
| `SessionFanout.StepKeepsInv` | crates/pbox-agent/src/sessions.rs:345-428 | attach, publish, close, disconnect, resize and drain keep the fan-out invariant in any order |
| `SessionFanout.Retain` | crates/pbox-agent/src/sessions.rs:415-424 | pruning keeps exactly the subscribers whose channel is open |
| `FanoutProgress.OutputCanReachEveryone` | crates/pbox-agent/src/sessions.rs:391-428 | in every run, while the session lives, whatever its process puts out next can be delivered in order to every viewer that stays connected, also from the middle of a send and with full channels |
| `FanoutProgress.CreatorGetsEverything` | crates/pbox-agent/src/sessions.rs:254-293 | a session created by attaching can be started, and its creator then gets all of its output |
| `FanoutProgress.EveryoneIsTold` | crates/pbox-agent/src/sessions.rs:379-386 | when the session ends every connected viewer whose channel has room is sent the cancellation as its next item, and nobody else anything |
| `FanoutProgress.CloseCanEndSession` | crates/pbox-agent/src/sessions.rs:391-428 | a close request ends a running session, even in the middle of a send |
| `FanoutProgress.RefusedResizeIsTold` | crates/pbox-agent/src/sessions.rs:315-322 | a resize that is refused is reported to its own viewer alone |
| `FanoutProgress.LastSizeHolds` | crates/pbox-agent/src/sessions.rs:260-271 | the screen has the size of the last attachment or resize, whatever happened since |
| `SessionRegistry.OneSessionPerName` | crates/pbox-agent/src/sessions.rs:93-170 | two sessions in the registry never share a name; entries never exceed the execution slots; slots held, used by others and free always add up |
| `SessionRegistry.EveryEntryHasAnOwner` | crates/pbox-agent/src/sessions.rs:172-291 | each entry has exactly one owner, spawned or owed by exactly one call, and holds a slot; no entry is ever orphaned by the second size check of attaching |
| `SessionRegistry.OwnersRemoveTheirOwnEntry` | crates/pbox-agent/src/sessions.rs:379-388 | an owner's removal by name removes its own entry and nothing else |
| `SessionRegistry.CloseReturnsAfterRemoval` | crates/pbox-agent/src/sessions.rs:82-91 | a close that returned did so after its session's worker was joined and its entry removed |
| `SessionRegistry.Sessions.Prepare` | crates/pbox-agent/src/sessions.rs:93-170 | creating or joining a session in place: exactly what `Admit` answers, with its registry, sessions and slots, or its error with nothing changed |
| `SessionRegistry.Admit` | crates/pbox-agent/src/sessions.rs:112-168 | a request is admitted if and only if its version, PTY, name and size are acceptable and its name is entered with the same user and not `create_only`, or its name is free and a slot is; joining gives the entered session and changes nothing, starting enters a new session under the name and takes one slot |
| `SessionRegistry.RefusedFor` | crates/pbox-agent/src/sessions.rs:113-133 | which error a request gets that passed the checks: taken name under `create_only`, another user, or no free slot |
| `SessionRequests.CheckedExactly` | crates/pbox-agent/src/sessions.rs:99-112 | which requests pass the checks made before the registry is locked, with the defaults they get, and which error each of the others gets |
| `SessionRegistry.CloseCanReturn` | crates/pbox-agent/src/sessions.rs:82-91 | in every run every close can still return |
| `SessionRegistry.CloseFindsItsSession` | crates/pbox-agent/src/sessions.rs:82-91 | a close waits for the session entered under its name |
| `SessionRegistry.StepKeepsInv` | crates/pbox-agent/src/sessions.rs:93-388 | every step of preparing, going on, owning and closing keeps the registry and slot invariant |
| `SessionRequests.Dimensions` | crates/pbox-agent/src/sessions.rs:39-48 | sizes are accepted exactly up to 200 by 500, with the defaults for zero, and every accepted size has at least one row and column |
| `SessionRequests.DimensionsIdempotent` | crates/pbox-agent/src/sessions.rs:39-48 | an accepted size is accepted again unchanged |
| `SessionRequests.CheckedAgain` | crates/pbox-agent/src/sessions.rs:99-111 | a request that passed preparation passes it again unchanged, so attaching cannot fail after the insertion |
| `InputPath.Pump` | crates/pbox-agent-client/src/lib.rs:445-493 | for any inputs, any keepalives and any point where the connection stops taking requests, the requests sent are a prefix of the full emission, cut exactly there |
| `InputPath.OneEndAndLast` | crates/pbox-agent-client/src/lib.rs:445-493 | the emission has exactly one end-of-input request and it is the last |
| `InputPath.EmissionCarriesTyped` | crates/pbox-agent-client/src/lib.rs:445-493 | the data of the emission is what was typed before the first end or detach |
| `InputPath.EmissionCarriesSizes` | crates/pbox-agent-client/src/lib.rs:445-493 | the sizes of the emission are, in order and with rows and columns in their places, the window sizes that arrived before the first end or detach |
| `InputPath.OneRequestPerTurn` | crates/pbox-agent-client/src/lib.rs:445-493 | each turn before the end gives one request of its own, in protocol version 3 |
| `InputPath.TicksAreSilent` | crates/pbox-agent-client/src/lib.rs:480-490 | keepalives change nothing of what is typed |
| `InputPath.ForwardStdin` | crates/pbox-agent/src/main.rs:1129-1176 | the PTY gets a prefix of the ideal input cut only by how much it takes, for every request stream and failure; success means the input ended in order and was taken or the PTY was gone; the sizes asked for are set in order, all of them on success |
| `InputPath.OneShotInput` | crates/pbox-agent/src/main.rs:1129-1211 | client pump and agent together, when every resize on the way works: a one-shot PTY gets the initial input, everything typed before the first end or detach, and one VEOF byte |
| `InputPath.OneShotSizes` | crates/pbox-agent/src/main.rs:1148-1165 | and its window gets exactly the sizes that arrived, in order |
| `InputPath.AcceptableExactly` | crates/pbox-agent/src/main.rs:1148-1165 | a request is refused for its version or for a size with rows and columns that cannot be set |
| `InputPath.CutInputEndsNothing` | crates/pbox-agent/src/main.rs:1148-1165 | input cut before the end request, by a lost connection or a resize that fails, adds no VEOF byte; the PTY gets what came before, which is a part of what was typed |
| `SessionInput.ChannelInterleavesSources` | crates/pbox-agent/src/sessions.rs:296-343 | a session's input is an order-preserving interleaving of its sources: each client's part is what its connection yielded before the attachment ended, short of at most one last request that was dropped as the attachment ended; sent text and replies are complete and in order; no entry ends the input |
| `SessionInput.SessionInputNeverEnds` | crates/pbox-agent/src/sessions.rs:308-313 | while the session lives, the PTY gets the data of the channel's requests in order, up to a resize that fails if there is one, and no detach, disconnect or silence makes the writer send a VEOF byte |
| `SessionInput.EverythingArrives` | crates/pbox-agent/src/sessions.rs:296-343 | the channel never jams: whatever attached clients, sent text and replies offer, in any order and amount, can all enter it in that order and be taken by the writer |
| `SessionInput.DetachingEndsAttachment` | crates/pbox-agent/src/sessions.rs:309-325 | the end of a client's input, another version or an impossible size ends the attachment, and nothing of it enters the channel |
| `SessionInput.AttachingAsksForSize` | crates/pbox-agent/src/sessions.rs:272-279 | attaching puts its window size into the channel unless 32 requests are waiting |
| `KeyEncoding.SentInputDecodes` | crates/pbox-agent/src/sessions.rs:516-657 | with bracketed paste and the all-keys flag a decoder recovers the text and the canonical keys from every accepted input of any length; what a key name means is fixed by the rows of KeyNames |
| `KeyEncoding.SentInputIsUnambiguous` | crates/pbox-agent/src/sessions.rs:516-657 | equal bytes mean equal text and equal keys |
| `KeyEncoding.KeyDecodes` | crates/pbox-agent/src/sessions.rs:549-657 | every accepted key is one self-delimiting control sequence, read back as the key it names whatever follows |
| `KeyEncoding.KeysDecode` | crates/pbox-agent/src/sessions.rs:549-657 | the concatenated encodings of any list of keys decode to that list |
| `KeyEncoding.PasteMarkers` | crates/pbox-agent/src/sessions.rs:516-547 | text cannot contain the escape character, so the end of the paste is found where it was put |
| `KeyEncoding.UnpastedTextAccepted` | crates/pbox-agent/src/sessions.rs:516-547 | without bracketed paste, with the all-keys flag, text is accepted exactly when it has no '+' |
| `KeyEncoding.PlusIsRejected` | crates/pbox-agent/src/sessions.rs:549-560 | for example "1+1" is rejected then |
| `KeyEncoding.SequencesNameTheirKeys` | crates/pbox-agent/src/sessions.rs:566-612 | each named cursor, editing and function key types the sequence that stands for it |
| `KeyNames.InterpretKeyText` | crates/pbox-agent/src/sessions.rs:555-608 | a name is read as its base name with the modifiers of the words before it, in any order, case and number: shift, alt, ctrl and control |
| `KeyNames.CharacterReported` | crates/pbox-agent/src/sessions.rs:625-627 | under the kitty flags a character is reported with its code, lower-case under ctrl, and 1 plus 1 for shift, 2 for alt and 4 for ctrl |
| `KeyNames.ControlCharacter` | crates/pbox-agent/src/sessions.rs:631-645 | without the protocol ctrl types the control character of '?' to '_' and of the letters, and of space, escape and delete, and refuses other characters; alt puts an escape in front |
| `KeyNames.PlainCharacter` | crates/pbox-agent/src/sessions.rs:628-656 | without the protocol and ctrl a character types itself, a letter its capital with shift; alt puts an escape in front |
| `KeyNames.EditingReported` | crates/pbox-agent/src/sessions.rs:568-572 | enter, tab, escape, backspace and space by any of their names are reported with the codes 13, 9, 27, 127 and 32 |
| `KeyNames.EditingTyped` | crates/pbox-agent/src/sessions.rs:628-656 | and type these characters, with shift-tab as the back tab and ctrl turning backspace to 8 and space to 0 |
| `KeyNames.FunctionKeyTyped` | crates/pbox-agent/src/sessions.rs:610-624 | each cursor and function key types the sequence that stands for it, with the modifier number if there are modifiers, and the short form exactly where legacy applications expect it |
| `KeyNames.UnknownModifierRefused` | crates/pbox-agent/src/sessions.rs:558-565 | a word before '+' that is no modifier refuses the key |
| `KeyNames.UnknownNameRefused` | crates/pbox-agent/src/sessions.rs:595-600 | a base name that is neither known nor one character refuses the key |
| `KeyNames.RawText` | crates/pbox-agent/src/sessions.rs:539-541 | without bracketed paste and the all-keys flag text goes out unchanged |
| `KeyNames.PastedText` | crates/pbox-agent/src/sessions.rs:531-534 | with bracketed paste text goes out between the two markers |
| `KeyNames.ControlTextRefused` | crates/pbox-agent/src/sessions.rs:521-528 | text with a control character other than a line break or tab is refused |
| `TerminalModes.Tracker.UnhandledCsi` | crates/pbox-agent/src/sessions.rs:444-512 | the in-place update by one control sequence is `Apply`, whose effect on each sequence is fixed by the rows below, with the bounded stack kept valid |
| `TerminalModes.Tracker.PopFlags` | crates/pbox-agent/src/sessions.rs:484-488 | popping n entries in place is `Pop`, which `PopRestores` fixes |
| `TerminalModes.PopRestores` | crates/pbox-agent/src/sessions.rs:484-488 | n pops restore the n-th last saved flags and keep the entries before it; when the stack runs out the flags are zero and the stack is empty |
| `TerminalModes.PopUndoesPush` | crates/pbox-agent/src/sessions.rs:477-488 | a pop undoes a push; at 16 entries the oldest is lost |
| `TerminalModes.SetFlagsWord` | crates/pbox-agent/src/sessions.rs:489-495 | setting with 2 adds flags, with 3 removes them, and otherwise replaces them |
| `TerminalModes.AddsEachBit` | crates/pbox-agent/src/sessions.rs:491-491 | an added flag is set and every other one is as it was |
| `TerminalModes.DropsEachBit` | crates/pbox-agent/src/sessions.rs:492-492 | a removed flag is not set and every other one is as it was |
| `TerminalModes.PushAndPopSequences` | crates/pbox-agent/src/sessions.rs:477-488 | the push and pop sequences with their defaults and the bound of 16 pops |
| `TerminalModes.SetSequences` | crates/pbox-agent/src/sessions.rs:489-496 | the sequences that set flags and modified keys, with their defaults and sub-parameters |
| `TerminalModes.ModeSequences` | crates/pbox-agent/src/sessions.rs:474-476 | the sequences for focus reports, cursor blink and cursor style |
| `TerminalModes.QueriesAnswered` | crates/pbox-agent/src/sessions.rs:457-472 | queries are answered exactly while nobody is attached, and change nothing else |
| `TerminalModes.ScreenSequencesIgnored` | crates/pbox-agent/src/sessions.rs:452-454 | what the screen handles itself never reaches the modes |
| `TerminalModes.ReplayRestores` | crates/pbox-agent/src/sessions.rs:677-708 | replaying the modes of any terminal to any other gives exactly the sender's flags, stack, modified-key and focus settings, and its cursor style and blink where it has them; nothing else changes |
| `TerminalModes.ReplayThenAgree` | crates/pbox-agent/src/sessions.rs:473-498 | after a replay any later output moves the keyboard modes of both terminals alike |
| `TerminalModes.FeedStaysValid` | crates/pbox-agent/src/sessions.rs:478-488 | however much output is processed, the stack never exceeds 16 entries |
| `Decimal.ValuePrint` | crates/pbox-agent/src/sessions.rs:677-708 | a printed number is read back as itself |
| `Scrollback.TerminalHistory` | crates/pbox-agent-client/src/terminal.rs:29-57 | for every history and screen height the moving window yields each scrollback line once and in order, and the result is the longest suffix whose lines cost at most 1 MiB with 8 bytes of overhead each |
| `Scrollback.LongestSuffixUnique` | crates/pbox-agent-client/src/terminal.rs:44-57 | that suffix is unique, so the answer does not depend on the screen's height |
| `ProcessTree.SelectForeground` | crates/pbox-agent/src/sessions.rs:749-769 | the process with the largest pair of depth and id among those in the foreground; none exactly when there is none |
| `ProcessTree.DepthIsExact` | crates/pbox-agent/src/sessions.rs:756-767 | as many steps as there are processes always suffice: the computed depth is the number of listed ancestors when the way up ends, and the number of processes when it cycles |
| `ProcessTree.AcyclicEnds` | crates/pbox-agent/src/sessions.rs:756-767 | without cycles every way up ends |
| `ProcessTree.SelectionIsDeepest` | crates/pbox-agent/src/sessions.rs:749-769 | with distinct ids and no cycles the selected process is strictly deeper than every other candidate, or as deep with a larger id |
| `OutputCoalescing.SendOutput` | crates/pbox-agent/src/main.rs:1374-1448 | for every schedule of reads, deadlines and errors: payloads of 1 to 8192 bytes that are what was read in order; nothing missing at the end, fewer than 1024 bytes at a read error, one payload when the receiver is gone; short payloads only when a deadline passed or the stream ended; it ends as reading does, and a terminal that is gone is no error |
| `OutputCoalescing.Gather` | crates/pbox-agent/src/main.rs:1400-1427 | gathering appends what it reads behind the first bytes in the buffer and stops at 1024 bytes, the deadline, the end or an error |
| `FileChunks.PutFile` | crates/pbox-agent-client/src/lib.rs:654-697 | data up to 64 MiB becomes a stream of full 8192-byte pieces labelled once and ended once; larger data is refused |
| `FileChunks.UploadReassembles` | crates/pbox-agent/src/main.rs:1482-1524 | every stream the client builds is accepted by the agent and reassembles to the data |
| `FileChunks.AcceptedIsWhole` | crates/pbox-agent/src/main.rs:1482-1535 | only whole streams are accepted: all chunks in a known version and without an owner, the last one alone ending the stream, within the limit |
| `FileChunks.WholeIsAccepted` | crates/pbox-agent/src/main.rs:1482-1535 | a stream of chunks is accepted if and only if it is whole, and then with all its data |
| `FileChunks.UploadErrors` | crates/pbox-agent/src/main.rs:1499-1535 | which error ends an upload, by what follows its chunks so far |
| `FileChunks.ReadFile` | crates/pbox-agent/src/main.rs:1600-1685 | the agent's download loop sends the download of the pieces it reads, as far as the receiver takes it |
| `FileChunks.CollectFileStream` | crates/pbox-agent-client/src/lib.rs:788-830 | the client succeeds exactly for whole downloads and returns all their data |
| `FileChunks.DownloadIsTheFile` | crates/pbox-agent/src/main.rs:1600-1685 | agent and client together: a download is accepted exactly when the file was read to its end and is within 64 MiB, however the reads cut it, and yields the file; a truncated stream never succeeds |
| `Uploads.ReceiveUpload` | crates/pbox-agent/src/main.rs:1482-1572 | success means the destination holds exactly the accepted data and mode, and happens if and only if the stream is accepted and no file system call fails; a failed atomic upload leaves the destination unchanged; no temporary file stays unless removing it failed; an error is the stream's or that of a failed call |
| `Uploads.ReceiveData` | crates/pbox-agent/src/main.rs:1493-1535 | the receiving loop writes exactly the accepted data to the temporary file |
| `Uploads.Place` | crates/pbox-agent/src/main.rs:1540-1566 | renaming or copying puts the temporary file's data in place with the requested permission bits |
| `Uploads.TemporaryPathsDiffer` | crates/pbox-agent/src/main.rs:1700-1710 | two uploads of one agent never share a temporary file, whatever their destinations |
| `Uploads.TemporaryIsNotDestination` | crates/pbox-agent/src/main.rs:1700-1710 | an upload's temporary file is another file of its destination's directory |
| `Uploads.SafeMode` | crates/pbox-agent/src/main.rs:1724-1726 | the nine permission bits of a mode |
| `ConcurrentUploads.UploadCanComplete` | crates/pbox-agent/src/main.rs:1482-1572 | from any state an upload that has not begun and whose temporary path is free can put any data at its destination with the permissions asked for, and leave nothing else behind |
| `ConcurrentUploads.DestinationIsOldOrWhole` | crates/pbox-agent/src/main.rs:1482-1556 | at every moment of any interleaving of uploads, a guarded destination holds its old contents or one finished upload's whole contents and mode |
| `ConcurrentUploads.AtomicExactlyWhenGuarded` | crates/pbox-agent/src/main.rs:1482-1572 | the condition is exact for every list of requests and every path: old or whole in every run if and only if only atomic uploads are asked for it, it is no temporary file, and no destination is the temporary file of one of its uploads |
| `ConcurrentUploads.UnmarkedDestinationIsOldOrWhole` | crates/pbox-agent/src/main.rs:1700-1710 | a condition callers can check: when no destination contains the mark `.pbox-upload-`, every destination asked for by atomic uploads only is old or whole at every moment |
| `ConcurrentUploads.TemporaryIsMarked` | crates/pbox-agent/src/main.rs:1705-1709 | every temporary name contains that mark |
| `ConcurrentUploads.TemporaryNameAsDestination` | crates/pbox-agent/src/main.rs:1700-1710 | for every destination there is a run from an empty file system in which an upload to its temporary file leaves it neither old nor whole, although only an atomic upload was asked for it |
| `ConcurrentUploads.ClashIsNeither` | crates/pbox-agent/src/main.rs:1540-1556 | the general form of that run, for any list of requests with such a clash |
| `ConcurrentUploads.CopyingIsNeither` | crates/pbox-agent/src/main.rs:1545-1556 | a destination that is copied to is neither while it is copied |
| `ConcurrentUploads.NoTemporaryLeft` | crates/pbox-agent/src/main.rs:1456-1480 | an upload that is over leaves no temporary file, unless removing it failed or the call was dropped while the file was being created |
| `ConcurrentUploads.StepKeepsInv` | crates/pbox-agent/src/main.rs:1482-1572 | every step of every upload keeps the invariant |
| `RepositoryGrammar.ValidRepositoryComponent` | crates/pbox-cli/src/images.rs:880-912 | the index-walking scanner accepts a component exactly when its lower-case form is in the grammar |
| `RepositoryGrammar.ScannerMatchesGrammar` | crates/pbox-cli/src/images.rs:880-912 | the same for the scanner as a function, for all strings |
| `RepositoryGrammar.RepositoryMatchesGrammar` | crates/pbox-cli/src/images.rs:869-878 | the split on '/' with the scanner accepts exactly the `<name>` grammar of the OCI Distribution Specification v1.1, section Pulling manifests |
| `ImageReferences.ParseIsWellFormed` | crates/pbox-cli/src/images.rs:97-155 | an accepted reference is lower-case and valid part by part, and `docker.io` implies a repository with a '/' |
| `ImageReferences.ParseCanonical` | crates/pbox-cli/src/images.rs:157-163 | reading the canonical form of any well-formed reference gives that reference |
| `ImageReferences.RoundTrip` | crates/pbox-cli/src/images.rs:97-163 | for every accepted input, reading its canonical form gives the same reference |
| `ImageReferences.CanonicalDecides` | crates/pbox-cli/src/images.rs:157-163 | two accepted inputs mean the same exactly when their canonical forms are equal |
| `ImageReferences.HubShorthand` | crates/pbox-cli/src/images.rs:125-145 | a name without a path means the same with `docker.io/` in front of it |
| `ImageText.WrittenIsRead` | crates/pbox-cli/src/images.rs:97-155 | every way of writing a reference (scheme or not, registry or not, path, and a tag, a digest or neither, with white space around it) is read as what it means: registry docker.io unless a host-like first part is written, "library/" before a path of one part there, tag "latest" when neither is given |
| `ImageText.AcceptedIsWritten` | crates/pbox-cli/src/images.rs:97-155 | and nothing else is accepted |
| `ImageText.RegistryMatchesGrammar` | crates/pbox-cli/src/images.rs:844-867 | the registry check accepts exactly dotted labels with or without a port from 1 to 65535 |
| `RecipeRecord.RecordLookup` | crates/pbox-cli/src/main.rs:2476-2484 | recording changes the entry of its own recipe and keeps every other recipe's |
| `RecipeRecord.RecordCapabilities` | crates/pbox-cli/src/main.rs:2485-2491 | capabilities are never lost and grow by the recipe's own exactly on success |
| `RecipeRecord.RecordKeepsDistinct` | crates/pbox-cli/src/main.rs:2476-2495 | recipe ids stay unique |
| `RecipeRecord.RecordKeepsRest` | crates/pbox-cli/src/main.rs:2476-2495 | nothing but the two lists changes; both come out sorted, and the recipes grow by one exactly when the job's was not there |
| `RecipeRecord.RecordCapabilitiesOnce` | crates/pbox-cli/src/main.rs:2485-2491 | no capability is stored twice |
| `RecipeRecord.RecordIdempotent` | crates/pbox-cli/src/main.rs:2457-2504 | recording the same job again, after a lost reply, changes nothing |
| `Provenance.AcceptedWritesAreRecords` | crates/pbox-cli/src/main.rs:2457-2504 | with any number of writers, other editors and failures, each accepted write is the writer's record applied to the metadata stored immediately before it, and a reported success is backed by such a write |
| `Provenance.NoLostUpdate` | crates/pbox-cli/src/main.rs:2457-2504 | without other editors the stored metadata holds for every recipe the last recorded entry, for every unrecorded recipe the old one, and exactly the old and provided capabilities; the box's other metadata, notes and settings are untouched |
| `Provenance.MissingDigestLosesUpdate` | crates/pbox-cli/src/main.rs:2498-2502 | when one writer's read carried no digest, another writer that had its digest and was told of success can find its entry gone although nobody else edited |
| `Provenance.WriterCanRecord` | crates/pbox-cli/src/main.rs:2457-2504 | from any state a writer that is left alone reads and stores its record and is told so |
| `Provenance.ThreeAttempts` | crates/pbox-cli/src/main.rs:2457-2511 | two attempts may fail and the third still succeed; a third failure is the last |
| `Provenance.AllCanRecord` | crates/pbox-cli/src/main.rs:2457-2504 | any number of writers can all record their work |
| `Provenance.Readable` | crates/pbox-cli/src/main.rs:2466-2472 | which descriptions a writer accepts and which error each of the others gives |
| `Provenance.Updated` | crates/pbox-core/src/metadata.rs:79-110 | the stored metadata is replaced by the record and the user's notes are kept |
| `ProvenanceWriter.RecordRecipeProvenance` | crates/pbox-cli/src/main.rs:2443-2511 | the retry loop against arbitrary edits between its read and its write: its writes are records of the metadata stored right then, success means the entry and the capabilities are stored, metadata faults change nothing further, and retries run out only when no attempt went undisturbed |
| `ProvenanceWriter.Amend` | crates/pbox-cli/src/main.rs:2473-2495 | the in-place edit of the metadata is the record |
| `StringOrder.LeIsLexicographic` | crates/pbox-cli/src/main.rs:2492-2495 | ids and capabilities are compared by their first difference, prefixes first |
| `StableSort.SortCorrect` | crates/pbox-cli/src/main.rs:2492-2495 | sorting yields a sorted permutation |
| `StableSort.SortFind` | crates/pbox-cli/src/main.rs:2492-2494 | the sort is stable as far as looking up an id can see |
| `RecipeSnapshot.ApplyRecipes` | crates/pbox-cli/src/main.rs:2120-2193 | for any recipe list and any pattern of failures: recipes run exactly under `never`, with a created snapshot, or under `auto` when PVE has no snapshots for the container; a created snapshot is deleted only after every selected recipe's success was recorded or a rollback to it succeeded and exists otherwise; it succeeds if and only if recipes may run and every call succeeds; a failed creation or run is recorded last and gives exactly the error that names its cause and what was done; other snapshots are untouched; a snapshot left behind is named in the error except when recording fails before the last recipe |
| `RecipeSnapshot.RunSelected` | crates/pbox-cli/src/main.rs:2138-2184 | the same from the run on, with or without a snapshot |
| `RecipeSnapshot.EarlyFailureIsUnnamed` | crates/pbox-cli/src/main.rs:2170-2183 | the exception: with two recipes, when recording the first one's success fails, the snapshot is kept and the error does not name it |
| `RecipeSnapshot.RecordSelected` | crates/pbox-cli/src/main.rs:2163-2184 | the loop over the selected recipes gives the snapshot to the last one only, stops at the first failure, and succeeds if and only if every call does, having recorded the recipes in their order and then deleted the snapshot |
| `RecipeSnapshot.RecordLast` | crates/pbox-cli/src/main.rs:2170-2183 | the last recipe is recorded before the snapshot may go |
| `RecipeSnapshot.CreateRecipeSnapshot` | crates/pbox-cli/src/main.rs:2227-2297 | by policy, clock and PVE's reply: no snapshot exactly under `never` or under `auto` when snapshots are unavailable; `always` fails then; every other failure asks once for the half-made snapshot to be deleted and says whether it may remain |
| `RecipeSnapshot.CleanupFailedRecipeSnapshot` | crates/pbox-cli/src/main.rs:2299-2321 | the half-made snapshot is deleted and the error says whether it may remain |
| `RecipeSnapshot.Recover` | crates/pbox-cli/src/main.rs:2364-2384 | what is asked of PVE to recover, and the note each outcome adds to the error |
| `RecipeSnapshot.FinishRecipeFailure` | crates/pbox-cli/src/main.rs:2354-2393 | after a failure the snapshot is deleted only when rolling back succeeded, otherwise it stays and is named; the failure is recorded last; the error is the cause with exactly the notes on what failed afterwards |
| `RecipeSnapshot.FinishRecipeSuccess` | crates/pbox-cli/src/main.rs:2395-2426 | the snapshot goes only after the success is recorded |
| `DirectoryWalk.CollectDecides` | crates/pbox-cli/src/main.rs:1640-1704 | on any finite file system with arbitrary links the walk ends, and it succeeds exactly when nothing unfit can be reached and no reachable directory leads back to itself |
| `DirectoryWalk.CollectListsReachable` | crates/pbox-cli/src/main.rs:1640-1704 | on success the lists are exactly the relative paths that lead to directories and to files, each file with its mode |
| `DirectoryWalk.DirectoryRepeatsNothing` | crates/pbox-cli/src/main.rs:1655-1704 | every path is listed once |
| `DirectoryWalk.ParentsFirst` | crates/pbox-cli/src/main.rs:1650-1651 | after sorting, each directory follows its parent |
| `DirectoryWalk.FaultExplained` | crates/pbox-cli/src/main.rs:1662-1699 | an error names a reachable path that is unfit for the reason given |
| `DirectoryWalk.FewerFree` | crates/pbox-cli/src/main.rs:1662-1672 | each step down leaves fewer directories the walk is not inside of, which bounds the recursion |
| `DirectoryWalk.Walker.CollectAt` | crates/pbox-cli/src/main.rs:1655-1704 | the recursion over a shared stack of ancestors and two growing lists computes the walk and restores the stack on every way out |
| `DirectoryWalk.Walker.CollectEntries` | crates/pbox-cli/src/main.rs:1680-1700 | the loop over a directory's entries |

## Left out

- Deadlock freedom of forwarding: both peers wait for room in a channel inside a select branch. Channels of the forwarding models are unbounded, which allows more runs than the code has; that success stays possible is shown for these.
- Delivery to the target when the client returns Ok: after the remote half-close the client stops reading events and cannot learn of a later failure; only the prefix holds there.
- The handshakes of both forwarding protocols: a run starts when the opening event has been taken and, for reverse forwarding, the stream is ready.
- A final event for a viewer that attaches while its session ends: it can subscribe after the subscribers were drained.
- A free slot at the moment `close` returns: the slot is released after the finished signal.
- What vt100 draws: a redraw is an opaque function of what the screen was shown and of its sizes; control sequences that vt100 handles itself never reach the tracker.
- ':' sub-parameters and the parser's limit of 32 parameters in control sequences.
- UTF-8: text is a sequence of characters where it is only compared or concatenated, and lengths of scrollback lines are lengths in bytes.
- Upper-casing of characters other than 'a' to 'z' in the legacy encoding of shifted keys, and legacy encodings as a decodable code: Escape and Alt prefixes are ambiguous by design.
- The loops of tasks that interleave (both forwarding protocols, attaching and publishing, owners and attachments of sessions) are steps on values rather than methods on shared objects: what a task does under one lock or between two suspension points is one step, and holding a lock is the step's atomicity.
- Which of PVE's answers mean that snapshots are unavailable, by HTTP status or by the text of a failed task: the reply's kind is given.
- Progress theorems say that a good end stays possible, not that a scheduler brings it about.
- Time: deadlines, keepalives and idle limits are events that may come at any moment.
- Directories, links and permissions in the file system under uploads: a path is a name for a file, and two paths are two files. The digest of an upload is represented by the bytes it is computed from.
- ConcurrentUploads.NoTemporaryLeft: does not cover a call that is dropped while its temporary file is being created, because no guard is armed then and the file stays; the model has that step.
- The open temporary file of an upload is found by its path: writes that continue after another upload has replaced that path are not told apart from writes to the replacement.
- RecipeSnapshot.EarlyFailureIsUnnamed: gives the trace and the error of such a failure; that `ApplyRecipes` can produce it follows from its calls being free to fail, which a contract cannot state.
- Copying in a non-atomic upload is one append that may be cut short; in the concurrent model the destination may hold anything while it lasts.
- The directory walk reads a file system at rest; its final sort is represented by any sorted permutation.
- Reading /proc: the process list is given. Killing processes, PTY calls, sockets, TLS, gRPC, Podman, Ansible, git and SSH are outcomes.
- A registry port with a leading '+': the number parser of Rust accepts one, and so does the model.
- The recipe cache lock: its recovery of stale locks does not exclude a second holder.
- Setup prompts, completions, output formatting, configuration, update checks, the desktop viewer, certificates and the relay.
- `pbox-core` beyond the metadata contract above, and `pbox-cli` sessions and snapshots, are not part of this model.
- Forward.WrittenIsPrefixOfRead: states nothing about how much of the local data reaches the target, because the client cannot know it.
- FileChunks.CollectFileStream: says exactly when a download is accepted but not which error a rejected one gives.
- Provenance.NoLostUpdate: requires that every read showed a digest; `Provenance.MissingDigestLosesUpdate` shows what happens otherwise.
